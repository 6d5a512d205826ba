// Job.java: submit a retrieval job, describe one, list a vault's jobs and read a job's output.
// Every job counts as completed the moment it is submitted.

module Job {
  import opened Options
  import opened Strings
  import opened Numbers
  import opened Uuids
  import opened Http
  import opened Util
  import opened BlobStore
  import opened GlacierProxy
  import opened Listings

  const JOB_TYPES: seq<string> := ["archive-retrieval", "inventory-retrieval"]

  /** The Location of a submitted job, "/{account}/vaults/{vault}/jobs/{id}". */
  function JobLocation(account: string, vault: string, id: string): string {
    "/" + account + "/vaults/" + vault + "/jobs/" + id
  }

  /** The 202 that acknowledges a submitted job. */
  function JobAccepted(account: string, vault: string, id: Uuid): Response {
    Response(ACCEPTED, map["x-amz-job-id" := id, "Location" := JobLocation(account, vault, id)], NoBody)
  }

  /** The Type of a job reads, with getAsString, as t. */
  predicate HasType(doc: JobDoc, t: string) {
    GetAsString(doc.jobType) == Ok(t)
  }

  /** The type of a submission that passes the type check. */
  predicate ValidType(doc: JobDoc) {
    GetAsString(doc.jobType).Ok? && GetAsString(doc.jobType).value in JOB_TYPES
  }

  /** The job as the index records it (GlacierProxy.addJob(vault, json)): the submitted object
      with CreationDate and CompletionDate both set to the time of acceptance, since a job is
      complete as soon as it exists. */
  function Stamped(doc: JobDoc, now: string): (r: JobDoc)
    ensures r.creationDate == Text(now) && r.completionDate == Text(now)
    ensures r.jobType == doc.jobType && r.archiveId == doc.archiveId && r.inventoryParameters == doc.inventoryParameters
    ensures r.jobDescription == doc.jobDescription && r.snsTopic == doc.snsTopic
  {
    doc.(creationDate := Text(now), completionDate := Text(now))
  }

  /** handlePost. The type is checked before the vault. A missing vault is answered NotFound
      but the handler carries on (there is no return after that answer): an inventory job is
      still recorded and its 202 fails with IOException, an archive job reaches blobExists,
      which raises. A job is recorded exactly when the type is valid and, for an archive job,
      the vault holds the archive, or when an inventory job names a missing vault. */
  twostate predicate PostAnswer(p: Proxy, req: Request, params: map<string, string>, env: Env, o: Outcome)
    requires "vault" in params
    reads p
  {
    // an empty, malformed or non-object body: the exchange ends with an exception
    && (req.jobDoc.None? ==> o == Threw(IllegalState))
    && (req.jobDoc.Some? && GetAsString(req.jobDoc.value.jobType).Fail? ==>
        o == Threw(GetAsString(req.jobDoc.value.jobType).fault))
    && (req.jobDoc.Some? && GetAsString(req.jobDoc.value.jobType).Ok? && !ValidType(req.jobDoc.value) ==>
        o == Answered(BadRequest("Invalid job type " + GetAsString(req.jobDoc.value.jobType).value)))
    && (req.jobDoc.Some? && ValidType(req.jobDoc.value) ==>
        var doc := req.jobDoc.value;
        var vault := params["vault"];
        var vaultFound := vault in old(p.containers);
        var notFound := NotFound("vault", Some(vault));
        var name := GetAsString(doc.archiveId);
        if HasType(doc, "inventory-retrieval") then
          && p.jobMap == old(p.jobMap)[vault := old(p.GetVaultJobs(vault))[env.newId := Stamped(doc, env.now)]]
          && o == (if vaultFound then Answered(JobAccepted(FormatParam(params, "account"), vault, env.newId))
                   else Outcome(Some(notFound), Some(IOException)))
        else if !vaultFound then
          && p.jobMap == old(p.jobMap)
          && o == Outcome(Some(notFound), Some(if name.Fail? then name.fault else ContainerNotFound))
        else if name.Fail? then
          && p.jobMap == old(p.jobMap)
          && o == Threw(name.fault)
        else if name.value !in old(p.containers)[vault].blobs then
          && p.jobMap == old(p.jobMap)
          && o == Answered(NotFound("archive", Some(name.value)))
        else
          && p.jobMap == old(p.jobMap)[vault := old(p.GetVaultJobs(vault))[env.newId := Stamped(doc, env.now)]]
          && o == Answered(JobAccepted(FormatParam(params, "account"), vault, env.newId)))
    && (!(req.jobDoc.Some? && ValidType(req.jobDoc.value)) ==> p.jobMap == old(p.jobMap))
    && p.containers == old(p.containers) && p.uploads == old(p.uploads)
  }

  method HandlePost(p: Proxy, req: Request, params: map<string, string>, env: Env) returns (o: Outcome)
    requires "vault" in params && p.Valid()
    modifies p
    ensures p.Valid()
    ensures PostAnswer(p, req, params, env, o)
  {
    if req.jobDoc.None? {
      return Threw(IllegalState);
    }
    var doc := req.jobDoc.value;
    var readType := GetAsString(doc.jobType);
    if readType.Fail? {
      return Threw(readType.fault);
    }
    var jobType := readType.value;
    if jobType !in JOB_TYPES {
      return Answered(BadRequest("Invalid job type " + jobType));
    }
    var vault := params["vault"];
    o := Outcome(None, None);
    if vault !in p.containers {
      o := Send(o, NotFound("vault", Some(vault)));
    }
    if jobType == "archive-retrieval" {
      var readName := GetAsString(doc.archiveId);
      if readName.Fail? {
        return Outcome(o.sent, Some(readName.fault));
      }
      var blobName := readName.value;
      var found := BlobExists(p.containers, vault, blobName);
      if found.Fail? {
        return Outcome(o.sent, Some(found.fault));
      }
      if !found.value {
        return Send(o, NotFound("archive", Some(blobName)));
      }
    }
    p.AddJob(vault, env.newId, Stamped(doc, env.now));
    assert p.jobMap[vault] == old(p.GetVaultJobs(vault))[env.newId := Stamped(doc, env.now)];
    o := Send(o, JobAccepted(FormatParam(params, "account"), vault, env.newId));
  }

  /** A job submitted with a 202 is found afterwards under the id its Location names. */
  lemma LocationNamesJob(account: string, vault: string, id: Uuid)
    ensures JobAccepted(account, vault, id).headers["x-amz-job-id"] == id
    ensures EndsWith(JobAccepted(account, vault, id).headers["Location"], id)
    ensures ParseUuid(JobAccepted(account, vault, id).headers["x-amz-job-id"]) == Some(id)
  {
    ParseCanonical(id);
    var loc := JobLocation(account, vault, id);
    assert loc[|loc| - |id|..] == id;
  }

  // ---- Describe ----

  /** The member "InventoryRetrievalParameters" as reported: the stored object with "Format"
      set to "JSON" (the handler writes that member into the stored job). */
  function ReportedParameters(params: Option<map<string, string>>): (r: Option<map<string, string>>)
    ensures r.Some? <==> params.Some?
    ensures r.Some? ==> r.value.Keys == params.value.Keys + {"Format"} && r.value["Format"] == "JSON"
    ensures r.Some? ==> forall k :: k in params.value && k != "Format" ==> r.value[k] == params.value[k]
  {
    if params.Some? then Some(params.value["Format" := "JSON"]) else None
  }

  /** The job's ArchiveId reads as the name of a blob of the vault. */
  predicate ArchiveStored(s: Store, vault: string, job: JobDoc) {
    GetAsString(job.archiveId).Ok? && vault in s && GetAsString(job.archiveId).value in s[vault].blobs
  }

  /** The RetrievalByteRange describe reports for an archive of `size` bytes: "0-(size-1)". */
  function DescribedRange(size: int): string {
    "0-" + FormatLong(Wrap64(size - 1))
  }

  /** handleDescribeJob with its two helpers. The answer copies the stored Type as Action,
      reports the job completed and succeeded, and puts the stored CreationDate under
      CompletionDate and the stored CompletionDate under CreationDate. An archive job reads the
      archive's size from the store: a missing vault raises, a missing archive dereferences null. */
  function DescribeJob(s: Store, account: string, vault: string, jobId: string, job: JobDoc): (r: Outcome)
    ensures GetAsString(job.jobType).Fail? ==> r == Threw(GetAsString(job.jobType).fault)
    ensures GetAsString(job.jobType).Ok? && !ValidType(job) ==> r == Answered(BadRequest("Invalid service path"))
    ensures HasType(job, "archive-retrieval") && GetAsString(job.archiveId).Fail? ==>
      r == Threw(GetAsString(job.archiveId).fault)
    ensures HasType(job, "archive-retrieval") && GetAsString(job.archiveId).Ok? && vault !in s ==> r == Threw(ContainerNotFound)
    ensures HasType(job, "archive-retrieval") && GetAsString(job.archiveId).Ok? && vault in s && !ArchiveStored(s, vault, job) ==>
      r == Threw(NullPointer)
    ensures HasType(job, "inventory-retrieval") ==> r.thrown.None? && r.sent.Some? && r.sent.value.status == OK
    ensures HasType(job, "archive-retrieval") && ArchiveStored(s, vault, job) ==>
      r.thrown.None? && r.sent.Some? && r.sent.value.status == OK
    ensures r.sent.Some? && r.sent.value.status == OK ==>
      && r.thrown.None? && ValidType(job) && r.sent.value.body.JobDescription?
      && var v := r.sent.value.body.job;
      && v.completed && v.statusCode == "Succeeded" && v.statusMessage == "Succeeded"
      && v.action == job.jobType && v.jobId == jobId && v.vaultArn == GetArn(account, vault)
      && v.creationDate == job.completionDate && v.completionDate == job.creationDate
      && (HasType(job, "archive-retrieval") ==>
            && ArchiveStored(s, vault, job)
            && var size := Size(s[vault].blobs[GetAsString(job.archiveId).value]);
            && v.archiveId == job.archiveId && v.archiveSize == Some(size) && v.retrievalByteRange == Some(DescribedRange(size)))
      && (HasType(job, "inventory-retrieval") ==>
            v.inventorySizeInBytes == Some(-1) && v.inventoryParameters == ReportedParameters(job.inventoryParameters))
  {
    match GetAsString(job.jobType)
    case Fail(f) => Threw(f)
    case Ok(t) =>
      if t == "archive-retrieval" then
        match GetAsString(job.archiveId)
        case Fail(f) => Threw(f)
        case Ok(name) =>
          match BlobMetadata(s, vault, name)
          case Fail(f) => Threw(f)
          case Ok(None) => Threw(NullPointer)
          case Ok(Some(b)) =>
            var size := Size(b);
            Answered(Json(OK, JobDescription(Described(account, vault, jobId, job,
              job.archiveId, Some(size), Some("deadbeef"), None, Some(DescribedRange(size)), None))))
      else if t == "inventory-retrieval" then
        Answered(Json(OK, JobDescription(Described(account, vault, jobId, job,
          Absent, None, None, Some(-1), None, ReportedParameters(job.inventoryParameters)))))
      else Answered(BadRequest("Invalid service path"))
  }

  /** The members describe sets whatever the job type. */
  function Described(account: string, vault: string, jobId: string, job: JobDoc,
                     archiveId: Field, archiveSize: Option<int>, archiveTreeHash: Option<string>,
                     inventorySize: Option<int>, range: Option<string>,
                     inventoryParameters: Option<map<string, string>>): JobView {
    JobView(job.jobType, archiveId, archiveSize, archiveTreeHash, inventorySize, range, inventoryParameters,
      true, job.completionDate, job.creationDate, job.jobDescription, jobId, Absent,
      "Succeeded", "Succeeded", GetArn(account, vault))
  }

  /** A job as the index records it describes as completed and succeeded, under its own id,
      with both dates the time of acceptance: the swap of the two dates cannot show. */
  lemma RecordedJobDescribes(s: Store, account: string, vault: string, id: string, doc: JobDoc, now: string)
    requires HasType(doc, "inventory-retrieval") || (HasType(doc, "archive-retrieval") && ArchiveStored(s, vault, doc))
    ensures var r := DescribeJob(s, account, vault, id, Stamped(doc, now));
      && r.sent.Some? && r.sent.value.status == OK && r.sent.value.body.JobDescription?
      && r.sent.value.body.job.jobId == id && r.sent.value.body.job.statusCode == "Succeeded"
      && r.sent.value.body.job.creationDate == Text(now) && r.sent.value.body.job.completionDate == Text(now)
  {
  }

  /** A Type given as a one-element array passes the type check, since getAsString reads the
      element, and describe copies the array itself as Action; an empty array raises. */
  lemma ArrayTypedJob(s: Store, account: string, vault: string, id: string, doc: JobDoc)
    requires doc.jobType == List([Text("inventory-retrieval")])
    ensures ValidType(doc)
    ensures var r := DescribeJob(s, account, vault, id, doc);
      && r.sent.Some? && r.sent.value.status == OK && r.sent.value.body.JobDescription?
      && r.sent.value.body.job.action == List([Text("inventory-retrieval")])
    ensures DescribeJob(s, account, vault, id, doc.(jobType := List([]))) == Threw(IllegalState)
  {
  }

  /** For an archive of n bytes, 0 < n, the described range ends at byte n-1: parsing the text
      after "0-" gives n-1 back. */
  lemma DescribedRangeEndsBeforeSize(n: int)
    requires 0 < n <= LONG_MAX
    ensures DescribedRange(n)[..2] == "0-"
    ensures ParseLong(DescribedRange(n)[2..]) == Some(n - 1)
  {
    ParseFormatLong(n - 1);
    assert DescribedRange(n)[2..] == FormatLong(n - 1);
  }

  // ---- List ----

  datatype ListJobsOptions = ListJobsOptions(
    completed: Option<bool>,
    limit: Option<int>,
    marker: Option<string>,
    statusCode: Option<string>)

  /** The options, or the message of the IllegalArgumentException the constructor raises. */
  datatype CheckedOptions = Checked(options: ListJobsOptions) | Rejected(message: string)

  const MAX_LIMIT := 1000
  const STATUS_CODES: seq<string> := ["Succeeded", "InProgress", "Failed"]

  /** The message of Integer.parseInt's NumberFormatException for a value it cannot read. */
  function NumberFormatMessage(s: string): string {
    "For input string: \"" + s + "\""
  }

  predicate CompletedOk(q: QueryMap) {
    First(q, "completed").None? || First(q, "completed").value in ["true", "false"]
  }

  predicate LimitParses(q: QueryMap) {
    First(q, "limit").None? || ParseInt(First(q, "limit").value).Some?
  }

  predicate LimitInRange(q: QueryMap)
    requires LimitParses(q)
  {
    First(q, "limit").None? || 1 <= ParseInt(First(q, "limit").value).value <= MAX_LIMIT
  }

  predicate StatusCodeOk(q: QueryMap) {
    First(q, "statuscode").None? || First(q, "statuscode").value in STATUS_CODES
  }

  /** What the ListJobsOptions constructor makes of the query: each option is read from the
      first value given for its key, the checks run in the order completed, limit, statuscode,
      the first failing check decides the message, and marker is taken as given. */
  function CheckOptions(q: QueryMap): (r: CheckedOptions)
    ensures r.Checked? <==> CompletedOk(q) && LimitParses(q) && LimitInRange(q) && StatusCodeOk(q)
    ensures !CompletedOk(q) ==> r == Rejected("Invalid completed value")
    ensures CompletedOk(q) && !LimitParses(q) ==> r == Rejected(NumberFormatMessage(First(q, "limit").value))
    ensures CompletedOk(q) && LimitParses(q) && !LimitInRange(q) ==> r == Rejected("Invalid limit value")
    ensures CompletedOk(q) && LimitParses(q) && LimitInRange(q) && !StatusCodeOk(q) ==> r == Rejected("Invalid statuscode value")
    ensures r.Checked? ==>
      && (r.options.completed.Some? <==> First(q, "completed").Some?)
      && (r.options.completed.Some? ==> (r.options.completed.value <==> First(q, "completed").value == "true"))
      && (r.options.limit.Some? <==> First(q, "limit").Some?)
      && (r.options.limit.Some? ==> Some(r.options.limit.value) == ParseInt(First(q, "limit").value) && 1 <= r.options.limit.value <= MAX_LIMIT)
      && r.options.statusCode == First(q, "statuscode")
      && r.options.marker == First(q, "marker")
  {
    if !CompletedOk(q) then Rejected("Invalid completed value")
    else if !LimitParses(q) then Rejected(NumberFormatMessage(First(q, "limit").value))
    else if !LimitInRange(q) then Rejected("Invalid limit value")
    else if !StatusCodeOk(q) then Rejected("Invalid statuscode value")
    else
      var c := First(q, "completed");
      var l := First(q, "limit");
      Checked(ListJobsOptions(
        if c.Some? then Some(c.value == "true") else None,
        if l.Some? then ParseInt(l.value) else None,
        First(q, "marker"),
        First(q, "statuscode")))
  }

  /** The ListJobsOptions constructor, assigning one field after another. */
  method NewListJobsOptions(q: QueryMap) returns (r: CheckedOptions)
    ensures r == CheckOptions(q)
  {
    var completed: Option<bool> := None;
    var limit: Option<int> := None;
    var marker: Option<string> := None;
    var statusCode: Option<string> := None;
    var completedString := First(q, "completed");
    if completedString.Some? {
      if completedString.value != "true" && completedString.value != "false" {
        return Rejected("Invalid completed value");
      }
      completed := Some(completedString.value == "true");
    }
    var limitString := First(q, "limit");
    if limitString.Some? {
      var parsed := ParseInt(limitString.value);
      if parsed.None? {
        return Rejected(NumberFormatMessage(limitString.value));
      }
      if parsed.value > MAX_LIMIT || parsed.value < 1 {
        return Rejected("Invalid limit value");
      }
      limit := parsed;
    }
    var statusString := First(q, "statuscode");
    if statusString.Some? {
      statusCode := statusString;
      if statusCode.value !in STATUS_CODES {
        return Rejected("Invalid statuscode value");
      }
    }
    var markerString := First(q, "marker");
    if markerString.Some? {
      marker := markerString;
    }
    r := Checked(ListJobsOptions(completed, limit, marker, statusCode));
  }

  /** The entry list reports for a job. The Type test in the loop compares a JSON element with
      a Java string, which never holds, so every job is reported the inventory way, with the
      action spelled "InventoryRetriveal". */
  function ListedJob(account: string, vault: string, id: string, job: JobDoc): JobView {
    JobView(Text("InventoryRetriveal"), Absent, None, None, Some(-1), None, ReportedParameters(job.inventoryParameters),
      true, job.creationDate, job.completionDate, job.jobDescription, id, job.snsTopic,
      "Succeeded", "Succeeded", GetArn(account, vault))
  }

  /** The listing names every job of the vault exactly once. */
  ghost predicate ListsJobs(views: seq<JobView>, jobs: map<string, JobDoc>, account: string, vault: string) {
    Lists(views, jobs, (id, job) => ListedJob(account, vault, id, job), (v: JobView) => v.jobId)
  }

  /** A listing filtered away by the options: no jobs and a null marker. */
  function EmptyJobList(): Response {
    Json(OK, JobList(None, []))
  }

  /** Whether the options ask only for jobs that are not completed or not succeeded; every
      job here is completed and succeeded, so such a listing is empty. */
  predicate FiltersEverything(options: ListJobsOptions) {
    options.completed == Some(false) || (options.statusCode.Some? && options.statusCode.value != "Succeeded")
  }

  /** What handleListJobs answers for a vault holding `jobs`. A query segment without a value
      raises; rejected options are answered BadRequest with the constructor's message; options
      that ask for incomplete or unsuccessful jobs get an empty list; otherwise every job of
      the vault is listed. The marker is always null. */
  ghost predicate ListJobsAnswer(o: Outcome, jobs: map<Uuid, JobDoc>, req: Request, account: string, vault: string) {
    if req.query.Some? && PutSegments([], JavaSplit(req.query.value, '&')).None? then o == Threw(IndexOutOfBounds)
    else
      var q := if req.query.None? then [] else PutSegments([], JavaSplit(req.query.value, '&')).value;
      match CheckOptions(q)
      case Rejected(message) => o == Answered(BadRequest("Invalid list jobs parameter: " + message))
      case Checked(options) =>
        if FiltersEverything(options) then o == Answered(EmptyJobList())
        else
          && o.thrown.None? && o.sent.Some? && o.sent.value.status == OK
          && o.sent.value.body.JobList? && o.sent.value.body.jobMarker.None?
          && ListsJobs(o.sent.value.body.jobs, jobs, account, vault)
  }

  method ListJobs(jobs: map<Uuid, JobDoc>, req: Request, account: string, vault: string) returns (o: Outcome)
    ensures ListJobsAnswer(o, jobs, req, account, vault)
  {
    var q := ParseQuery(req.query);
    if q.None? {
      return Threw(IndexOutOfBounds);
    }
    var options := NewListJobsOptions(q.value);
    if options.Rejected? {
      return Answered(BadRequest("Invalid list jobs parameter: " + options.message));
    }
    var completed := options.options.completed;
    if completed.Some? && !completed.value {
      return Answered(EmptyJobList());
    }
    var statusCode := options.options.statusCode;
    if statusCode.Some? && statusCode.value != "Succeeded" {
      return Answered(EmptyJobList());
    }
    var byId: map<string, JobDoc> := jobs;
    var views := ListAll(byId, (id, job) => ListedJob(account, vault, id, job), (v: JobView) => v.jobId);
    o := Answered(Json(OK, JobList(None, views)));
  }

  // ---- Output ----

  function InventoryEntry(name: string, b: Blob): InventoryItem {
    InventoryItem(name, b.lastModified, Size(b))
  }

  /** The inventory lists every blob of the vault exactly once. */
  ghost predicate ListsBlobs(items: seq<InventoryItem>, blobs: map<string, Blob>) {
    Lists(items, blobs, InventoryEntry, (it: InventoryItem) => it.archiveId)
  }

  /** handleRetrieveInventoryJob: every blob of the vault, metadata blobs included, with its
      name, last-modified date and size; the inventory date is the time of the request. A
      vault that does not exist makes the listing raise. */
  ghost predicate InventoryAnswer(o: Outcome, s: Store, account: string, vault: string, now: string) {
    if vault !in s then o == Threw(ContainerNotFound)
    else
      && o.thrown.None? && o.sent.Some? && o.sent.value.status == OK
      && o.sent.value.body.Inventory? && o.sent.value.body.inventoryArn == GetArn(account, vault) && o.sent.value.body.inventoryDate == now
      && ListsBlobs(o.sent.value.body.archives, s[vault].blobs)
  }

  method RetrieveInventory(s: Store, account: string, vault: string, env: Env) returns (o: Outcome)
    ensures InventoryAnswer(o, s, account, vault, env.now)
  {
    if vault !in s {
      return Threw(ContainerNotFound);
    }
    var items := ListAll(s[vault].blobs, InventoryEntry, (it: InventoryItem) => it.archiveId);
    o := Answered(Json(OK, Inventory(GetArn(account, vault), env.now, items)));
  }

  /** The inventory does not leave out metadata blobs: an archive uploaded in one request
      appears twice, once under its id and once under its metadata blob's name. */
  lemma {:induction false} InventoryShowsMetadataBlobs(items: seq<InventoryItem>, blobs: map<string, Blob>, id: string)
    requires ListsBlobs(items, blobs)
    requires id in blobs && GetMetadataBlobName(id) in blobs
    ensures exists i :: 0 <= i < |items| && items[i].archiveId == id
    ensures exists i :: 0 <= i < |items| && items[i].archiveId == GetMetadataBlobName(id) && IsMetadataBlob(items[i].archiveId)
  {
    MetadataBlobNames(id);
    assert id in blobs.Keys && GetMetadataBlobName(id) in blobs.Keys;
    var i :| 0 <= i < |items| && ((it: InventoryItem) => it.archiveId)(items[i]) == GetMetadataBlobName(id);
    assert items[i].archiveId == GetMetadataBlobName(id);
  }

  // ---- Dispatch ----

  /** handleGet: a job id selects output (path ending in "output") or describe; without one,
      a path ending in "jobs" lists. Output is always the inventory, whatever the job's type,
      because the Type test compares a JSON element with a Java string. */
  ghost predicate GetAnswer(o: Outcome, p: Proxy, req: Request, params: map<string, string>, env: Env)
    requires "vault" in params && p.Valid()
    reads p
  {
    if "job" in params then
      if ParseUuid(params["job"]).None? then o == Threw(IllegalArgument)
      else if p.GetJob(params["vault"], ParseUuid(params["job"]).value).None? then
        o == Answered(NotFound("job", Some(params["job"])))
      else
        var job := p.GetJob(params["vault"], ParseUuid(params["job"]).value).value;
        if EndsWith(req.path, "output") then
          InventoryAnswer(o, p.containers, FormatParam(params, "account"), params["vault"], env.now)
        else if EndsWith(req.path, params["job"]) then
          o == DescribeJob(p.containers, FormatParam(params, "account"), params["vault"], params["job"], job)
        else o == Outcome(None, None)
    else if EndsWith(req.path, "jobs") then
      ListJobsAnswer(o, p.GetVaultJobs(params["vault"]), req, FormatParam(params, "account"), params["vault"])
    else o == Answered(BadRequest("Invalid request path"))
  }

  method HandleGet(p: Proxy, req: Request, params: map<string, string>, env: Env) returns (o: Outcome)
    requires "vault" in params && p.Valid()
    ensures GetAnswer(o, p, req, params, env)
  {
    var account := FormatParam(params, "account");
    var vault := params["vault"];
    if "job" in params {
      var jobId := params["job"];
      var id := ParseUuid(jobId);
      if id.None? {
        return Threw(IllegalArgument);
      }
      var job := p.GetJob(vault, id.value);
      if job.None? {
        return Answered(NotFound("job", Some(jobId)));
      }
      if EndsWith(req.path, "output") {
        o := RetrieveInventory(p.containers, account, vault, env);
      } else if EndsWith(req.path, jobId) {
        o := DescribeJob(p.containers, account, vault, jobId, job.value);
      } else {
        o := Outcome(None, None);
      }
    } else if EndsWith(req.path, "jobs") {
      o := ListJobs(p.GetVaultJobs(vault), req, account, vault);
    } else {
      o := Answered(BadRequest("Invalid request path"));
    }
  }
}
