// Archive.java: upload an archive in one request (the payload blob plus a metadata blob that
// records its hashes and description) and delete one.

module Archive {
  import opened Options
  import opened Numbers
  import opened Uuids
  import opened Http
  import opened Util
  import opened BlobStore
  import opened GlacierProxy

  const METADATA_DESCRIPTION := "archive-description"
  const METADATA_TREE_HASH := "tree-hash"
  const METADATA_CONTENT_HASH := "content-hash"

  /** Both hash headers an upload must carry. */
  predicate HasHashHeaders(headers: map<string, string>) {
    "x-amz-content-sha256" in headers && "x-amz-sha256-tree-hash" in headers
  }

  /** The metadata record, in order: the description when the request has one, then the tree
      hash, then the content hash. */
  function MetadataEntries(headers: map<string, string>): (r: seq<(string, string)>)
    requires HasHashHeaders(headers)
    ensures |r| == if "x-amz-archive-description" in headers then 3 else 2
    ensures r[|r| - 2] == (METADATA_TREE_HASH, headers["x-amz-sha256-tree-hash"])
    ensures r[|r| - 1] == (METADATA_CONTENT_HASH, headers["x-amz-content-sha256"])
    ensures (exists i :: 0 <= i < |r| && r[i].0 == METADATA_DESCRIPTION) <==> "x-amz-archive-description" in headers
    ensures "x-amz-archive-description" in headers ==> r[0] == (METADATA_DESCRIPTION, headers["x-amz-archive-description"])
  {
    var hashes := [(METADATA_TREE_HASH, headers["x-amz-sha256-tree-hash"]),
                   (METADATA_CONTENT_HASH, headers["x-amz-content-sha256"])];
    if "x-amz-archive-description" in headers then
      var r := [(METADATA_DESCRIPTION, headers["x-amz-archive-description"])] + hashes;
      assert r[0].0 == METADATA_DESCRIPTION;
      r
    else
      assert hashes[0].0[0] != METADATA_DESCRIPTION[0] && hashes[1].0[0] != METADATA_DESCRIPTION[0];
      hashes
  }

  /** removeBlob of an archive and of its metadata blob. */
  function RemoveArchive(s: Store, vault: string, name: string): (r: Store)
    ensures r.Keys == s.Keys
    ensures vault in s ==> r[vault].blobs == s[vault].blobs - {name, GetMetadataBlobName(name)}
    ensures vault in s ==> r[vault].creationDate == s[vault].creationDate
    ensures forall c :: c in s && c != vault ==> r[c] == s[c]
  {
    RemoveBlob(RemoveBlob(s, vault, name), vault, GetMetadataBlobName(name))
  }

  /** The vault with the archive's payload blob and metadata blob written. */
  function WithArchive(s: Store, vault: string, id: string, payload: Blob, record: Blob): (r: Store)
    requires vault in s
    ensures r.Keys == s.Keys
    ensures r[vault].blobs == s[vault].blobs[id := payload][GetMetadataBlobName(id) := record]
    ensures forall c :: c in s && c != vault ==> r[c] == s[c]
  {
    s[vault := s[vault].(blobs := s[vault].blobs[id := payload][GetMetadataBlobName(id) := record])]
  }

  /** The two puts of an upload, each made only when the store accepts it, followed by the
      clean-up when either was refused: both succeed and the vault holds both blobs, or the
      clean-up leaves the store as removing the two names from the original would. */
  lemma {:induction false} PutsThenCleanup(s: Store, vault: string, id: string, payload: Blob, record: Blob, etag: bool, metadataTag: bool)
    requires vault in s
    ensures
      var s1 := if etag then PutBlob(s, vault, id, payload).value else s;
      var s2 := if metadataTag then PutBlob(s1, vault, GetMetadataBlobName(id), record).value else s1;
      && (etag && metadataTag ==> s2 == WithArchive(s, vault, id, payload, record))
      && (!etag || !metadataTag ==> RemoveArchive(s2, vault, id) == RemoveArchive(s, vault, id))
  {
    var s1 := if etag then PutBlob(s, vault, id, payload).value else s;
    var s2 := if metadataTag then PutBlob(s1, vault, GetMetadataBlobName(id), record).value else s1;
    if etag && metadataTag {
      var w := WithArchive(s, vault, id, payload, record);
      assert s2[vault] == w[vault];
      assert forall c :: c in s2 ==> s2[c] == w[c];
    } else {
      var r2 := RemoveArchive(s2, vault, id);
      var r := RemoveArchive(s, vault, id);
      assert r2[vault].blobs == r[vault].blobs;
      assert r2[vault] == r[vault];
      assert forall c :: c in r2 ==> r2[c] == r[c];
    }
  }

  /** The Location the upload answers with, "/{account}/{vault}/{id}". */
  function ArchiveLocation(account: string, vault: string, id: string): string {
    "/" + account + "/" + vault + "/" + id
  }

  /** handlePost. The new archive is named by a fresh UUID and its metadata blob by that name
      plus "_metadata". A missing vault is NotFound with nothing written; when either write fails
      both names are removed and the answer is a server error; otherwise both blobs are in the
      vault and the answer is 201 with the id, the echoed tree hash and the Location. */
  twostate predicate PostAnswer(p: Proxy, req: Request, params: map<string, string>, env: Env, o: Outcome)
    requires "vault" in params
    reads p
  {
    && (if !HasHashHeaders(req.headers) then
          o == Answered(BadRequest("Missing content or tree hash")) && p.containers == old(p.containers)
        else if ContentLength(req).None? then
          o == Threw(NumberFormat) && p.containers == old(p.containers)
        else if params["vault"] !in old(p.containers) then
          o == Answered(NotFound("vault", Some(params["vault"]))) && p.containers == old(p.containers)
        else
          var vault := params["vault"];
          var id := env.newId;
          if PutArchiveBlob in env.failing || PutMetadataBlob in env.failing then
            && o == Answered(ServerError("Failed to create the archive"))
            && p.containers == RemoveArchive(old(p.containers), vault, id)
          else
            && o == Answered(Response(CREATED,
                 map["x-amz-sha256-tree-hash" := req.headers["x-amz-sha256-tree-hash"],
                     "Location" := ArchiveLocation(FormatParam(params, "account"), vault, id),
                     "x-amz-archive-id" := id], NoBody))
            && p.containers == WithArchive(old(p.containers), vault, id,
                 Blob(Payload(ContentLength(req).value), env.now), Blob(MetadataRecord(MetadataEntries(req.headers)), env.now)))
    && p.jobMap == old(p.jobMap) && p.uploads == old(p.uploads)
  }

  method HandlePost(p: Proxy, req: Request, params: map<string, string>, env: Env) returns (o: Outcome)
    requires "vault" in params
    modifies p
    ensures PostAnswer(p, req, params, env, o)
  {
    if !HasHashHeaders(req.headers) {
      return Answered(BadRequest("Missing content or tree hash"));
    }
    var vault := params["vault"];
    var length := ContentLength(req);
    if length.None? {
      return Threw(NumberFormat);
    }
    var treeHash := req.headers["x-amz-sha256-tree-hash"];
    var metadata := MetadataEntries(req.headers);
    var id: string := env.newId;
    var payload := Blob(Payload(length.value), env.now);
    var record := Blob(MetadataRecord(metadata), env.now);
    if PutBlob(p.containers, vault, id, payload).Fail? {
      // putBlob raises ContainerNotFoundException before anything is written
      return Answered(NotFound("vault", Some(vault)));
    }
    var written := WriteArchive(p, vault, id, payload, record, env.failing);
    if !written {
      return Answered(ServerError("Failed to create the archive"));
    }
    o := Answered(Response(CREATED,
      map["x-amz-sha256-tree-hash" := treeHash,
          "Location" := ArchiveLocation(FormatParam(params, "account"), vault, id),
          "x-amz-archive-id" := id], NoBody));
  }

  /** The two puts of an upload, each of which the store may refuse, and the removal of both
      names when either was refused. */
  method WriteArchive(p: Proxy, vault: string, id: string, payload: Blob, record: Blob, failing: set<StoreCall>) returns (written: bool)
    requires vault in p.containers
    modifies p
    ensures written <==> PutArchiveBlob !in failing && PutMetadataBlob !in failing
    ensures written ==> p.containers == WithArchive(old(p.containers), vault, id, payload, record)
    ensures !written ==> p.containers == RemoveArchive(old(p.containers), vault, id)
    ensures p.jobMap == old(p.jobMap) && p.uploads == old(p.uploads)
  {
    var etag := PutArchiveBlob !in failing;
    var metadataTag := PutMetadataBlob !in failing;
    PutsThenCleanup(p.containers, vault, id, payload, record, etag, metadataTag);
    if etag {
      p.containers := PutBlob(p.containers, vault, id, payload).value;
    }
    if metadataTag {
      p.containers := PutBlob(p.containers, vault, GetMetadataBlobName(id), record).value;
    }
    written := etag && metadataTag;
    if !written {
      p.containers := RemoveArchive(p.containers, vault, id);
    }
  }

  /** Long.parseLong of the Content-Length header; None where it throws NumberFormatException,
      which includes a missing header. */
  function ContentLength(req: Request): Option<int> {
    if "Content-Length" in req.headers then ParseLong(req.headers["Content-Length"]) else None
  }

  /** handleDelete: removes the archive and its metadata blob and answers 204, whether or not
      they existed. */
  twostate predicate DeleteAnswer(p: Proxy, params: map<string, string>, o: Outcome)
    requires "vault" in params
    reads p
  {
    && (if "archive" !in params then
          o == Answered(BadRequest("Archive ID must be specified")) && p.containers == old(p.containers)
        else
          o == Answered(Status(NO_CONTENT)) && p.containers == RemoveArchive(old(p.containers), params["vault"], params["archive"]))
    && p.jobMap == old(p.jobMap) && p.uploads == old(p.uploads)
  }

  method HandleDelete(p: Proxy, params: map<string, string>) returns (o: Outcome)
    requires "vault" in params
    modifies p
    ensures DeleteAnswer(p, params, o)
  {
    if "archive" !in params {
      return Answered(BadRequest("Archive ID must be specified"));
    }
    var blob := params["archive"];
    var vault := params["vault"];
    p.containers := RemoveBlob(p.containers, vault, blob);
    p.containers := RemoveBlob(p.containers, vault, GetMetadataBlobName(blob));
    o := Answered(Status(NO_CONTENT));
  }

  /** Deleting an archive twice leaves the store as deleting it once. */
  lemma {:induction false} DeleteIdempotent(s: Store, vault: string, name: string)
    ensures RemoveArchive(RemoveArchive(s, vault, name), vault, name) == RemoveArchive(s, vault, name)
  {
    var once := RemoveArchive(s, vault, name);
    var twice := RemoveArchive(once, vault, name);
    if vault in s {
      assert twice[vault].blobs == once[vault].blobs;
      assert twice[vault] == once[vault];
    }
    assert forall c :: c in twice ==> twice[c] == once[c];
  }

  /** Deleting an archive that was just uploaded under a name the vault did not use gives the
      vault back as it was before the upload. */
  lemma {:induction false} DeleteUndoesUpload(s: Store, vault: string, id: Uuid, payload: Blob, record: Blob)
    requires vault in s && id !in s[vault].blobs && GetMetadataBlobName(id) !in s[vault].blobs
    ensures RemoveArchive(WithArchive(s, vault, id, payload, record), vault, id) == s
  {
    var r := RemoveArchive(WithArchive(s, vault, id, payload, record), vault, id);
    assert r[vault].blobs == s[vault].blobs;
    assert r[vault] == s[vault];
    assert forall c :: c in r ==> r[c] == s[c];
  }

  /** The archive blob and its metadata blob never share a name, so an upload always writes
      two distinct blobs. */
  lemma ArchiveAndMetadataDiffer(id: Uuid)
    ensures GetMetadataBlobName(id) != id
    ensures IsMetadataBlob(GetMetadataBlobName(id)) && !IsMetadataBlob(id)
  {
    MetadataBlobNames(id);
    ArchiveIdIsNotMetadata(id);
  }
}
