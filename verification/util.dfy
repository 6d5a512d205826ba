// Util.java: query-string parsing, ARN and location strings, metadata-blob naming and the
// bodies of the three error responses.

module Util {
  import opened Options
  import opened Strings
  import opened Http
  import Uuids

  const METADATA_SUFFIX := "_metadata"

  /** A LinkedHashMultimap<String, String>: its (key, value) pairs in insertion order, each once. */
  type QueryMap = seq<(string, string)>

  /** Multimap.put: a pair already present is not added again. */
  function Put(m: QueryMap, k: string, v: string): QueryMap {
    if (k, v) in m then m else m + [(k, v)]
  }

  /** A query segment that splits on '=' into at least a key and a value. */
  predicate HasValue(segment: string) {
    |JavaSplit(segment, '=')| >= 2
  }

  /** The pair a segment contributes: the text before the first '=' and the piece after it. */
  function SegmentPair(segment: string): (string, string)
    requires HasValue(segment)
  {
    var kv := JavaSplit(segment, '='); (kv[0], kv[1])
  }

  /** The multimap after putting the pairs of `segments` in order, or None where a segment has
      no value (reading kv[1] raises ArrayIndexOutOfBoundsException). */
  function PutSegments(m: QueryMap, segments: seq<string>): Option<QueryMap>
    decreases |segments|
  {
    if segments == [] then Some(m)
    else if !HasValue(segments[0]) then None
    else
      var (k, v) := SegmentPair(segments[0]);
      PutSegments(Put(m, k, v), segments[1..])
  }

  /** parseQuery: None stands for the ArrayIndexOutOfBoundsException a segment without a value raises. */
  method ParseQuery(query: Option<string>) returns (r: Option<QueryMap>)
    ensures query.None? ==> r == Some([])
    ensures query.Some? ==> r == PutSegments([], JavaSplit(query.value, '&'))
  {
    var m: QueryMap := [];
    if query.None? {
      return Some(m);
    }
    var segments := JavaSplit(query.value, '&');
    var i := 0;
    while i < |segments|
      invariant 0 <= i <= |segments|
      invariant PutSegments(m, segments[i..]) == PutSegments([], segments)
    {
      assert segments[i..][0] == segments[i] && segments[i..][1..] == segments[i + 1..];
      var kv := JavaSplit(segments[i], '=');
      if |kv| < 2 {
        return None;
      }
      m := Put(m, kv[0], kv[1]);
      i := i + 1;
    }
    assert segments[i..] == [];
    return Some(m);
  }

  /** The first value stored under key k (Multimap.get(k).iterator().next()). */
  function First(m: QueryMap, k: string): Option<string> {
    if m == [] then None else if m[0].0 == k then Some(m[0].1) else First(m[1..], k)
  }

  /** The value of the first segment whose key is k. */
  function FirstSegmentValue(segments: seq<string>, k: string): Option<string>
    requires AllHaveValues(segments)
  {
    if segments == [] then None
    else if SegmentPair(segments[0]).0 == k then Some(SegmentPair(segments[0]).1)
    else FirstSegmentValue(segments[1..], k)
  }

  lemma {:induction false} FirstOfAppend(m: QueryMap, p: (string, string), k: string)
    ensures First(m + [p], k) == if First(m, k).Some? then First(m, k) else if p.0 == k then Some(p.1) else None
  {
    if m != [] {
      assert (m + [p])[1..] == m[1..] + [p];
      FirstOfAppend(m[1..], p, k);
    }
  }

  lemma {:induction false} FirstOfMember(m: QueryMap, p: (string, string))
    requires p in m
    ensures First(m, p.0).Some?
  {
    if m[0] != p {
      FirstOfMember(m[1..], p);
    }
  }

  lemma SegmentsTail(segments: seq<string>)
    requires segments != []
    ensures forall i :: 1 <= i < |segments| ==> segments[1..][i - 1] == segments[i]
  {
  }

  /** Every segment splits into a key and a value. */
  predicate AllHaveValues(segments: seq<string>) {
    forall i :: 0 <= i < |segments| ==> HasValue(segments[i])
  }

  /** Parsing fails exactly when some segment has no value. */
  lemma {:induction false} PutSegmentsFails(m: QueryMap, segments: seq<string>)
    ensures PutSegments(m, segments).Some? <==> AllHaveValues(segments)
    decreases |segments|
  {
    if segments != [] && HasValue(segments[0]) {
      var (k0, v0) := SegmentPair(segments[0]);
      PutSegmentsFails(Put(m, k0, v0), segments[1..]);
      SegmentsTail(segments);
    }
  }

  /** A parse that succeeds extends the multimap it started from and holds every segment's pair. */
  lemma {:induction false} PutSegmentsKeeps(m: QueryMap, segments: seq<string>)
    ensures AllHaveValues(segments) ==>
      && PutSegments(m, segments).Some?
      && m <= PutSegments(m, segments).value
      && forall i :: 0 <= i < |segments| ==> SegmentPair(segments[i]) in PutSegments(m, segments).value
    decreases |segments|
  {
    if segments != [] && AllHaveValues(segments) {
      assert HasValue(segments[0]);
      var (k0, v0) := SegmentPair(segments[0]);
      var m' := Put(m, k0, v0);
      SegmentsTail(segments);
      PutSegmentsKeeps(m', segments[1..]);
      var r := PutSegments(m, segments).value;
      assert (k0, v0) in m' && m' <= r;
      forall i | 0 <= i < |segments|
        ensures SegmentPair(segments[i]) in r
      {
        if i > 0 {
          assert segments[1..][i - 1] == segments[i];
        }
      }
    }
  }

  /** A parse that succeeds holds nothing but the starting pairs and the segments' pairs. */
  lemma {:induction false} PutSegmentsOnly(m: QueryMap, segments: seq<string>)
    ensures AllHaveValues(segments) ==>
      && PutSegments(m, segments).Some?
      && forall p :: p in PutSegments(m, segments).value ==>
           p in m || exists i :: 0 <= i < |segments| && SegmentPair(segments[i]) == p
    decreases |segments|
  {
    if segments != [] && AllHaveValues(segments) {
      assert HasValue(segments[0]);
      var (k0, v0) := SegmentPair(segments[0]);
      var m' := Put(m, k0, v0);
      SegmentsTail(segments);
      PutSegmentsOnly(m', segments[1..]);
      var r := PutSegments(m, segments).value;
      forall p | p in r
        ensures p in m || exists i :: 0 <= i < |segments| && SegmentPair(segments[i]) == p
      {
        if p !in m' {
          var j :| 0 <= j < |segments[1..]| && SegmentPair(segments[1..][j]) == p;
          assert SegmentPair(segments[j + 1]) == p;
        }
      }
    }
  }

  /** In a parse that succeeds, the first value held for a key is the starting map's, or else
      the value of the first segment carrying that key. */
  lemma {:induction false} PutSegmentsFirst(m: QueryMap, segments: seq<string>, k: string)
    ensures AllHaveValues(segments) ==>
      && PutSegments(m, segments).Some?
      && First(PutSegments(m, segments).value, k) == if First(m, k).Some? then First(m, k) else FirstSegmentValue(segments, k)
    decreases |segments|
  {
    if segments != [] && AllHaveValues(segments) {
      assert HasValue(segments[0]);
      var (k0, v0) := SegmentPair(segments[0]);
      SegmentsTail(segments);
      PutSegmentsFirst(Put(m, k0, v0), segments[1..], k);
      if (k0, v0) !in m {
        FirstOfAppend(m, (k0, v0), k);
      } else {
        FirstOfMember(m, (k0, v0));
      }
    }
  }

  /** params.get(key) as String.format's "%s" prints it: "null" when the key is absent. */
  function FormatParam(params: map<string, string>, key: string): string {
    if key in params then params[key] else "null"
  }

  /** The ARN of a vault, "arn:aws:glacier::{account}:vaults/{vault}". */
  function GetArn(account: string, vault: string): string {
    "arn:aws:glacier::" + account + ":vaults/" + vault
  }

  /** For one account, ARNs name vaults one-to-one: the vault is the ARN's text after the fixed prefix. */
  lemma ArnNamesVault(account: string, v1: string, v2: string)
    ensures GetArn(account, v1)[|GetArn(account, "")|..] == v1
    ensures GetArn(account, v1) == GetArn(account, v2) ==> v1 == v2
  {
    var n := |GetArn(account, "")|;
    assert GetArn(account, v1)[n..] == v1;
    assert GetArn(account, v2)[n..] == v2;
  }

  /** "{account}/vaults/{vault}/multipart-uploads/{upload}", with no leading slash. */
  function GetMultipartLocation(account: string, vault: string, upload: string): string {
    account + "/vaults/" + vault + "/multipart-uploads/" + upload
  }

  /** "{account}/vaults/{vault}/archives/{archive}", with no leading slash. */
  function GetArchiveLocation(account: string, vault: string, archive: string): string {
    account + "/vaults/" + vault + "/archives/" + archive
  }

  /** The name of the blob that holds an archive's metadata record. */
  function GetMetadataBlobName(archive: string): string {
    archive + METADATA_SUFFIX
  }

  predicate IsMetadataBlob(name: string) {
    EndsWith(name, METADATA_SUFFIX)
  }

  /** A blob is a metadata blob exactly when it is the metadata blob of some name. */
  lemma MetadataBlobNames(name: string)
    ensures IsMetadataBlob(GetMetadataBlobName(name))
    ensures IsMetadataBlob(name) <==> exists x :: GetMetadataBlobName(x) == name
  {
    var s := GetMetadataBlobName(name);
    assert s[|s| - |METADATA_SUFFIX|..] == METADATA_SUFFIX;
    if IsMetadataBlob(name) {
      var x := name[..|name| - |METADATA_SUFFIX|];
      assert GetMetadataBlobName(x) == name;
    }
  }

  /** An archive id, being a UUID, is never taken for a metadata blob. */
  lemma ArchiveIdIsNotMetadata(id: Uuids.Uuid)
    ensures !IsMetadataBlob(id)
  {
    assert !Uuids.IsDashPosition(27) && Uuids.IsLowerHex(id[27]);
    assert id[|id| - |METADATA_SUFFIX|..][0] == id[27];
  }

  /** Every error body is the JSON {code, message, type}; type is "client" for a 4xx status and
      "server" for a 5xx status, and the body is sent as application/json. */
  predicate IsErrorResponse(r: Response) {
    && r.body.Error?
    && 400 <= r.status < 600
    && (r.body.kind == "client" <==> r.status < 500)
    && (r.body.kind == "server" <==> r.status >= 500)
    && r.headers == map["Content-type" := "application/json"]
  }

  /** The header sendJSON adds to every JSON response. */
  function SendJsonHeaders(): map<string, string> {
    map["Content-type" := "application/json"]
  }

  /** sendJSON. */
  function Json(status: int, body: Body): Response {
    Response(status, SendJsonHeaders(), body)
  }

  /** sendBadRequest. */
  function BadRequest(message: string): (r: Response)
    ensures IsErrorResponse(r) && r.status == BAD_REQUEST
    ensures r.body.code == "BadRequest" && r.body.message == message && r.body.kind == "client"
  {
    Response(BAD_REQUEST, SendJsonHeaders(), Error("BadRequest", message, "client"))
  }

  /** sendServerError: 503, not 500. */
  function ServerError(message: string): (r: Response)
    ensures IsErrorResponse(r) && r.status == SERVICE_UNAVAILABLE
    ensures r.body.code == "ServiceUnavailableException" && r.body.message == message && r.body.kind == "server"
  {
    Response(SERVICE_UNAVAILABLE, SendJsonHeaders(), Error("ServiceUnavailableException", message, "server"))
  }

  /** sendNotFound; an absent id prints as "null", as String.format does. */
  function NotFound(resourceType: string, resourceId: Option<string>): (r: Response)
    ensures IsErrorResponse(r) && r.status == NOT_FOUND
    ensures r.body.code == "ResourceNotFoundException" && r.body.kind == "client"
    ensures r.body.message == "The " + resourceType + " was not found: " + (if resourceId.Some? then resourceId.value else "null")
  {
    var id := if resourceId.Some? then resourceId.value else "null";
    Response(NOT_FOUND, SendJsonHeaders(), Error("ResourceNotFoundException", "The " + resourceType + " was not found: " + id, "client"))
  }
}
