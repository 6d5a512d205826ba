// The exchange between a client and a handler, as data: the request a handler reads, the
// response it sends, the Java exception that may escape it, and the inputs the model takes
// from outside (fresh identifiers, the clock, blob-store failures).

module Http {
  import opened Options
  import opened Uuids

  const OK := 200
  const CREATED := 201
  const ACCEPTED := 202
  const NO_CONTENT := 204
  const BAD_REQUEST := 400
  const NOT_FOUND := 404
  const METHOD_NOT_ALLOWED := 405
  const INTERNAL_SERVER_ERROR := 500
  const SERVICE_UNAVAILABLE := 503

  /** A Java exception that leaves a handler uncaught. */
  datatype Fault =
    | IOException            // sending response headers a second time on one exchange
    | IllegalArgument        // UUID.fromString on a malformed id (NumberFormatException, a subclass, for a
                             // group that is not hex), an unsupported HTTP method
    | NullPointer            // dereferencing a missing header, field or record
    | Arithmetic             // a remainder by a part size of zero
    | IndexOutOfBounds       // a query segment without a value
    | NumberFormat           // Long.parseLong on a missing or malformed Content-Length
    | IllegalState           // an empty request body (JsonNull.getAsJsonObject) or one that is not a JSON
                             // object, and a malformed one (JsonSyntaxException, which ends the exchange
                             // the same way); getAsString on an array not of one element
    | UnsupportedOperation   // getAsString on a JSON null or object
    | ContainerNotFound      // a blob-store read on a container that does not exist

  /** A value, or the exception a library call raised instead of returning. */
  datatype Try<+T> = Ok(value: T) | Fail(fault: Fault)

  /** A member of a parsed JSON object as JsonObject.get and getAsString see it: missing
      (get returns null), a primitive whose text getAsString returns, a JSON null or object, on
      which getAsString throws, or an array of values. Absent never occurs inside a List: an
      array holds a JSON null as NonText. */
  datatype Field = Absent | Text(s: string) | NonText | List(items: seq<Field>)

  /** JsonElement.getAsString on what JsonObject.get returned: a primitive's text; a missing
      member is a null reference; a JSON null or object does not support it; an array answers
      for its one element, and with any other number of elements is in an illegal state. */
  function GetAsString(f: Field): (r: Try<string>)
    ensures f.Text? ==> r == Ok(f.s)
    ensures f.Absent? || f.NonText? ==> r.Fail?
    ensures r.Fail? ==> r.fault == NullPointer || r.fault == UnsupportedOperation || r.fault == IllegalState
    ensures f.List? && |f.items| != 1 ==> r == Fail(IllegalState)
    ensures f.List? && |f.items| == 1 ==> r == GetAsString(f.items[0])
  {
    match f
    case Absent => Fail(NullPointer)
    case Text(s) => Ok(s)
    case NonText => Fail(UnsupportedOperation)
    case List(items) => if |items| == 1 then GetAsString(items[0]) else Fail(IllegalState)
  }

  /** A job submission as stored in the job index: the request's JSON object, by member. */
  datatype JobDoc = JobDoc(
    jobType: Field,                // "Type"
    archiveId: Field,              // "ArchiveId"
    jobDescription: Field,         // "JobDescription"
    snsTopic: Field,               // "SNSTopic"
    creationDate: Field,           // "CreationDate"
    completionDate: Field,         // "CompletionDate"
    inventoryParameters: Option<map<string, string>>)  // "InventoryRetrievalParameters"

  /** What a handler reads from an exchange. Header names are taken as already normalised;
      `jobDoc` is the request body parsed as JSON, None when it is not a JSON object: empty
      (JsonNull), malformed (JsonSyntaxException) or some other JSON value. */
  datatype Request = Request(
    verb: string,
    path: string,
    query: Option<string>,
    headers: map<string, string>,
    jobDoc: Option<JobDoc>)

  /** Blob-store calls that may report failure by returning null: putBlob of an archive,
      putBlob of its metadata, and the three multipart primitives. */
  datatype StoreCall =
    | PutArchiveBlob
    | PutMetadataBlob
    | InitiateMultipartUpload
    | UploadMultipartPart
    | CompleteMultipartUpload

  /** Inputs from outside the model: UUID.randomUUID results, the current time, the store calls
      that fail during this request, and the next-marker the store reports for a container listing. */
  datatype Env = Env(
    newId: Uuid,
    secondId: Uuid,
    now: string,
    failing: set<StoreCall>,
    nextMarker: Option<string>)

  datatype VaultEntry = VaultEntry(
    creationDate: string,
    lastInventoryDate: string,
    sizeInBytes: int,
    numberOfArchives: Option<int>,
    vaultName: string,
    vaultArn: string)

  /** One job as describe or list reports it. Members copied from the stored submission keep
      their Field form; None and Absent are written as JSON null or are omitted. */
  datatype JobView = JobView(
    action: Field,
    archiveId: Field,
    archiveSize: Option<int>,
    archiveTreeHash: Option<string>,
    inventorySizeInBytes: Option<int>,
    retrievalByteRange: Option<string>,
    inventoryParameters: Option<map<string, string>>,
    completed: bool,
    creationDate: Field,
    completionDate: Field,
    jobDescription: Field,
    jobId: string,
    snsTopic: Field,
    statusCode: string,
    statusMessage: string,
    vaultArn: string)

  datatype InventoryItem = InventoryItem(archiveId: string, creationDate: string, size: int)

  datatype UploadView = UploadView(
    creationDate: string,
    archiveDescription: Option<string>,
    partSizeInBytes: int,
    multipartUploadId: string,
    vaultArn: string)

  datatype PartView = PartView(treeHash: string, rangeInBytes: string)

  datatype Body =
    | NoBody
    | Error(code: string, message: string, kind: string)
    | VaultList(marker: Option<string>, vaults: seq<VaultEntry>)
    | VaultDescription(vault: VaultEntry)
    | JobList(jobMarker: Option<string>, jobs: seq<JobView>)
    | JobDescription(job: JobView)
    | Inventory(inventoryArn: string, inventoryDate: string, archives: seq<InventoryItem>)
    | UploadList(uploadMarker: Option<string>, uploads: seq<UploadView>)
    | PartList(
        description: Option<string>,
        partsCreationDate: string,
        partsMarker: Option<string>,
        uploadId: string,
        partSize: int,
        parts: seq<PartView>,
        partsArn: string)

  datatype Response = Response(status: int, headers: map<string, string>, body: Body)

  /** What became of one exchange: the first response sent on it, and the exception that
      escaped, if any. A client sees `sent`. When it is None, the JDK's HTTP server closes the
      connection without an answer, except that it answers a NumberFormatException itself, with
      400 "NumberFormatException thrown"; that answer is not part of the model. */
  datatype Outcome = Outcome(sent: Option<Response>, thrown: Option<Fault>)

  function Answered(r: Response): Outcome { Outcome(Some(r), None) }

  function Threw(f: Fault): Outcome { Outcome(None, Some(f)) }

  /** sendResponseHeaders: the first send answers the client; a later one raises IOException. */
  function Send(o: Outcome, r: Response): Outcome {
    if o.sent.None? then Outcome(Some(r), o.thrown) else Outcome(o.sent, Some(IOException))
  }

  function Status(code: int): Response { Response(code, map[], NoBody) }
}
