// GlacierProxyHandler.java: the entry point for every request. It checks the API version,
// tags the answer with a request id and routes the path to the job, archive, multipart or
// vault handler, trying the four path patterns in that order.

module GlacierProxyHandler {
  import opened Options
  import opened Strings
  import opened Numbers
  import opened Uuids
  import opened Http
  import opened Util
  import opened GlacierProxy
  import opened BaseRequestHandler
  import Job
  import Vault

  const VERSION_HEADER := "x-amz-glacier-version"
  const CURRENT_VERSION := "2012-06-01"
  const REQUEST_ID_HEADER := "x-amzn-RequestId"
  const REQUEST_ID := "glacier-proxy"

  /** `\d{12}|-`: a twelve-digit account number, or "-" for the caller's own account. */
  predicate IsAccount(s: string) {
    s == "-" || (|s| == 12 && forall i :: 0 <= i < 12 ==> IsDigit(s[i]))
  }

  predicate IsAlphaNumeric(c: char) {
    'a' <= c <= 'z' || 'A' <= c <= 'Z' || '0' <= c <= '9'
  }

  /** VAULT_NAME, `[a-zA-Z0-9\.\-_]+`. */
  predicate IsVaultName(s: string) {
    |s| > 0 && forall i :: 0 <= i < |s| ==> IsAlphaNumeric(s[i]) || s[i] == '.' || s[i] == '-' || s[i] == '_'
  }

  /** The job, archive and upload id groups, `[a-zA-Z0-9-_]+` (no '.'). */
  predicate IsResourceId(s: string) {
    |s| > 0 && forall i :: 0 <= i < |s| ==> IsAlphaNumeric(s[i]) || s[i] == '-' || s[i] == '_'
  }

  /** VAULT_PREFIX, `^/(\d{12}|-)/vaults`, as the first three '/'-separated pieces. */
  predicate HasVaultPrefix(segs: seq<string>) {
    |segs| >= 3 && segs[0] == "" && IsAccount(segs[1]) && segs[2] == "vaults"
  }

  /** The groups "account" and "vault" of a match. */
  function VaultGroups(segs: seq<string>): map<string, string>
    requires |segs| >= 4
  {
    map["account" := segs[1], "vault" := segs[3]]
  }

  // No group of the patterns can hold a '/', so a whole-path match is a match of the path's
  // '/'-separated pieces, one piece per group or literal.

  /** JOBS_RE, `PREFIX/VAULT/jobs(/(?<job>ID))?(/output)?`. The optional job group is tried
      first, so in ".../jobs/output" the job group is "output". */
  function MatchJobs(path: string): (r: Option<map<string, string>>)
    ensures r.Some? ==> "vault" in r.value && "account" in r.value
  {
    var segs := Split(path, '/');
    if 5 <= |segs| <= 7 && HasVaultPrefix(segs) && IsVaultName(segs[3]) && segs[4] == "jobs"
       && (|segs| >= 6 ==> IsResourceId(segs[5])) && (|segs| == 7 ==> segs[6] == "output")
    then Some(if |segs| >= 6 then VaultGroups(segs)["job" := segs[5]] else VaultGroups(segs))
    else None
  }

  /** ARCHIVES_RE and MULTIPART_RE: `PREFIX/VAULT/{collection}(/(?<key>ID))?`. */
  function MatchCollection(path: string, collection: string, key: string): (r: Option<map<string, string>>)
    ensures r.Some? ==> "vault" in r.value && "account" in r.value
  {
    var segs := Split(path, '/');
    if 5 <= |segs| <= 6 && HasVaultPrefix(segs) && IsVaultName(segs[3]) && segs[4] == collection
       && (|segs| == 6 ==> IsResourceId(segs[5]))
    then Some(if |segs| == 6 then VaultGroups(segs)[key := segs[5]] else VaultGroups(segs))
    else None
  }

  /** VAULTS_RE, `PREFIX(/VAULT)?`. */
  function MatchVaults(path: string): (r: Option<map<string, string>>)
    ensures r.Some? ==> "account" in r.value
  {
    var segs := Split(path, '/');
    if 3 <= |segs| <= 4 && HasVaultPrefix(segs) && (|segs| == 4 ==> IsVaultName(segs[3]))
    then Some(if |segs| == 4 then VaultGroups(segs) else map["account" := segs[1]])
    else None
  }

  datatype Route = Route(kind: HandlerKind, groups: map<string, string>, keys: seq<string>)

  /** The patterns in the order handle tries them, each with the group names it copies. */
  function RouteOf(path: string): (r: Option<Route>)
    ensures r.Some? && r.value.kind != VaultHandler ==> "vault" in r.value.groups && "vault" in r.value.keys
  {
    if MatchJobs(path).Some? then Some(Route(JobHandler, MatchJobs(path).value, ["account", "vault", "job"]))
    else if MatchCollection(path, "archives", "archive").Some? then
      Some(Route(ArchiveHandler, MatchCollection(path, "archives", "archive").value, ["account", "vault", "archive"]))
    else if MatchCollection(path, "multipart-uploads", "upload").Some? then
      Some(Route(MultipartHandler, MatchCollection(path, "multipart-uploads", "upload").value, ["account", "vault", "upload"]))
    else if MatchVaults(path).Some? then Some(Route(VaultHandler, MatchVaults(path).value, ["account", "vault"]))
    else None
  }

  /** The parameters a route hands its handler, as setParameters copies them: each listed
      group that took part in the match. */
  function Captures(groups: map<string, string>, keys: seq<string>): map<string, string> {
    map k | k in keys && k in groups :: groups[k]
  }

  /** setParameters: copies each listed group that took part in the match. */
  method SetParameters(groups: map<string, string>, keys: seq<string>) returns (params: map<string, string>)
    ensures forall k :: k in params <==> k in keys && k in groups
    ensures forall k :: k in params ==> params[k] == groups[k]
    ensures params == Captures(groups, keys)
  {
    params := map[];
    for i := 0 to |keys|
      invariant forall k :: k in params <==> k in keys[..i] && k in groups
      invariant forall k :: k in params ==> params[k] == groups[k]
    {
      assert keys[..i + 1] == keys[..i] + [keys[i]];
      if keys[i] in groups {
        params := params[keys[i] := groups[keys[i]]];
      }
    }
    assert keys[..|keys|] == keys;
  }

  /** The request id every routed answer carries. */
  function WithRequestId(r: Response): Response {
    r.(headers := map[REQUEST_ID_HEADER := REQUEST_ID] + r.headers)
  }

  function TagOutcome(o: Outcome): (r: Outcome)
    ensures r.thrown == o.thrown && (r.sent.Some? <==> o.sent.Some?)
    ensures r.sent.Some? ==> r.sent.value.status == o.sent.value.status && r.sent.value.body == o.sent.value.body
    ensures r.sent.Some? ==> REQUEST_ID_HEADER in r.sent.value.headers
    ensures r.sent.Some? && REQUEST_ID_HEADER !in o.sent.value.headers ==> r.sent.value.headers[REQUEST_ID_HEADER] == REQUEST_ID
  {
    if o.sent.Some? then Outcome(Some(WithRequestId(o.sent.value)), o.thrown) else o
  }

  /** handle. A request without the version header dereferences null; a wrong version is
      answered BadRequest without a request id; a path no pattern matches is answered
      BadRequest "Unknown request"; otherwise the matched handler answers, tagged with the
      request id. */
  method Handle(p: Proxy, req: Request, env: Env) returns (o: Outcome, ghost handled: Outcome)
    requires p.Valid()
    modifies p, p.uploads.Values
    ensures p.Valid()
    ensures VERSION_HEADER !in req.headers ==> o == Threw(NullPointer) && Unchanged(p)
    ensures VERSION_HEADER in req.headers && req.headers[VERSION_HEADER] != CURRENT_VERSION ==>
      o == Answered(BadRequest("Unsupported or missing API version")) && Unchanged(p)
    ensures VERSION_HEADER in req.headers && req.headers[VERSION_HEADER] == CURRENT_VERSION && RouteOf(req.path).None? ==>
      o == Answered(WithRequestId(BadRequest("Unknown request"))) && Unchanged(p)
    ensures VERSION_HEADER in req.headers && req.headers[VERSION_HEADER] == CURRENT_VERSION && RouteOf(req.path).Some? ==>
      && o.thrown != Some(IOException)
      && (o.sent.Some? ==> REQUEST_ID_HEADER in o.sent.value.headers)
      && (!IsDispatched(req.verb) ==> o == Threw(IllegalArgument) && Unchanged(p))
      && (IsDispatched(req.verb) && !Overrides(RouteOf(req.path).value.kind, req.verb) ==>
            o == Answered(WithRequestId(Status(METHOD_NOT_ALLOWED))) && Unchanged(p))
      && (Overrides(RouteOf(req.path).value.kind, req.verb) ==>
            && Dispatched(RouteOf(req.path).value.kind, p, req,
                          Captures(RouteOf(req.path).value.groups, RouteOf(req.path).value.keys), env, handled)
            && o == TagOutcome(CatchIo(handled)))
  {
    handled := Outcome(None, None);
    if VERSION_HEADER !in req.headers {
      return Threw(NullPointer), handled;
    }
    if req.headers[VERSION_HEADER] != CURRENT_VERSION {
      return Answered(BadRequest("Unsupported or missing API version")), handled;
    }
    var route := RouteOf(req.path);
    if route.None? {
      return Answered(WithRequestId(BadRequest("Unknown request"))), handled;
    }
    // the parameters setParameters builds (see SetParameters); taken from the function so that
    // the heap the handler starts from is the one handle was called with
    var params := Captures(route.value.groups, route.value.keys);
    var caught;
    caught, handled := HandleRequest(route.value.kind, p, req, params, env);
    o := TagOutcome(caught);
  }

  // ---- Properties of the patterns ----

  /** At most one pattern matches any path, so the order in which handle tries them does
      not matter. */
  lemma PatternsAreDisjoint(path: string)
    ensures MatchJobs(path).Some? ==> MatchCollection(path, "archives", "archive").None?
    ensures MatchJobs(path).Some? ==> MatchCollection(path, "multipart-uploads", "upload").None?
    ensures MatchCollection(path, "archives", "archive").Some? ==> MatchCollection(path, "multipart-uploads", "upload").None?
    ensures MatchVaults(path).Some? ==> MatchJobs(path).None? && MatchCollection(path, "archives", "archive").None?
                                        && MatchCollection(path, "multipart-uploads", "upload").None?
  {
  }

  lemma SplitParts(parts: seq<string>)
    requires |parts| >= 1 && forall i :: 0 <= i < |parts| ==> '/' !in parts[i]
    ensures Split(Join(parts, '/'), '/') == parts
  {
    SplitJoin(parts, '/');
  }

  lemma NoSlash(s: string)
    requires IsVaultName(s) || IsAccount(s)
    ensures '/' !in s
  {
    assert forall i :: 0 <= i < |s| ==> s[i] != '/';
  }

  lemma NoSlashInId(s: string)
    requires IsResourceId(s)
    ensures '/' !in s
  {
    assert forall i :: 0 <= i < |s| ==> s[i] != '/';
  }

  /** A canonical UUID is a valid job, archive or upload id in a path. */
  lemma UuidIsResourceId(id: Uuid)
    ensures IsResourceId(id)
  {
    forall i | 0 <= i < |id|
      ensures IsAlphaNumeric(id[i]) || id[i] == '-' || id[i] == '_'
    {
      assert IsDashPosition(i) ==> id[i] == '-';
      assert !IsDashPosition(i) ==> IsLowerHex(id[i]);
    }
  }

  /** Joining a piece in front of at least one more. */
  lemma JoinFront(a: string, rest: seq<string>)
    requires |rest| >= 1
    ensures Join([a] + rest, '/') == a + "/" + Join(rest, '/')
  {
    JoinHead([a] + rest, '/');
    assert ([a] + rest)[1..] == rest;
  }

  lemma JoinThree(a: string, b: string, c: string)
    ensures Join([a, b, c], '/') == a + "/" + b + "/" + c
  {
    JoinFront(b, [c]);
    assert [b, c] == [b] + [c];
    JoinFront(a, [b, c]);
    assert [a, b, c] == [a] + [b, c];
  }

  lemma JoinFour(a: string, b: string, c: string, d: string)
    ensures Join([a, b, c, d], '/') == a + "/" + b + "/" + c + "/" + d
  {
    JoinThree(b, c, d);
    JoinFront(a, [b, c, d]);
    assert [a, b, c, d] == [a] + [b, c, d];
  }

  lemma JoinFive(a: string, b: string, c: string, d: string, e: string)
    ensures Join([a, b, c, d, e], '/') == a + "/" + b + "/" + c + "/" + d + "/" + e
  {
    JoinFour(b, c, d, e);
    JoinFront(a, [b, c, d, e]);
    assert [a, b, c, d, e] == [a] + [b, c, d, e];
  }

  lemma JoinSix(a: string, b: string, c: string, d: string, e: string, f: string)
    ensures Join([a, b, c, d, e, f], '/') == a + "/" + b + "/" + c + "/" + d + "/" + e + "/" + f
  {
    JoinFive(b, c, d, e, f);
    JoinFront(a, [b, c, d, e, f]);
    assert [a, b, c, d, e, f] == [a] + [b, c, d, e, f];
  }

  /** The pieces of a job's Location. */
  lemma JobLocationPieces(account: string, vault: string, id: string)
    requires '/' !in account && '/' !in vault && '/' !in id
    ensures Split(Job.JobLocation(account, vault, id), '/') == ["", account, "vaults", vault, "jobs", id]
  {
    JoinSix("", account, "vaults", vault, "jobs", id);
    assert Join(["", account, "vaults", vault, "jobs", id], '/') == Job.JobLocation(account, vault, id);
    SplitParts(["", account, "vaults", vault, "jobs", id]);
  }

  /** A path whose pieces are a job's resource path routes to the job handler. */
  lemma JobPathRoutes(path: string, account: string, vault: string, id: string)
    requires IsAccount(account) && IsVaultName(vault) && IsResourceId(id)
    requires Split(path, '/') == ["", account, "vaults", vault, "jobs", id]
    ensures RouteOf(path) ==
      Some(Route(JobHandler, map["account" := account, "vault" := vault, "job" := id], ["account", "vault", "job"]))
  {
  }

  /** The Location of a submitted job routes back to the job handler with that account, vault
      and job id, so describing the job at its Location finds it. */
  lemma JobLocationRoutes(account: string, vault: string, id: Uuid)
    requires IsAccount(account) && IsVaultName(vault)
    ensures RouteOf(Job.JobLocation(account, vault, id)) ==
      Some(Route(JobHandler, map["account" := account, "vault" := vault, "job" := id], ["account", "vault", "job"]))
  {
    NoSlash(account);
    NoSlash(vault);
    UuidIsResourceId(id);
    NoSlashInId(id);
    JobLocationPieces(account, vault, id);
    JobPathRoutes(Job.JobLocation(account, vault, id), account, vault, id);
  }

  /** The Location of a new vault routes to the vault handler with that account and vault. */
  lemma VaultLocationRoutes(account: string, vault: string)
    requires IsAccount(account) && IsVaultName(vault)
    ensures RouteOf(Vault.VaultLocation(account, vault)) ==
      Some(Route(VaultHandler, map["account" := account, "vault" := vault], ["account", "vault"]))
  {
    NoSlash(account);
    NoSlash(vault);
    var parts := ["", account, "vaults", vault];
    JoinFour("", account, "vaults", vault);
    assert Join(parts, '/') == Vault.VaultLocation(account, vault);
    SplitParts(parts);
  }

  /** The pieces of a multipart Location, as given and with a leading '/'. */
  lemma MultipartLocationPieces(account: string, vault: string, upload: string)
    requires '/' !in account && '/' !in vault && '/' !in upload
    ensures Split(GetMultipartLocation(account, vault, upload), '/') == [account, "vaults", vault, "multipart-uploads", upload]
    ensures Split("/" + GetMultipartLocation(account, vault, upload), '/') == ["", account, "vaults", vault, "multipart-uploads", upload]
  {
    var loc := GetMultipartLocation(account, vault, upload);
    JoinFive(account, "vaults", vault, "multipart-uploads", upload);
    assert Join([account, "vaults", vault, "multipart-uploads", upload], '/') == loc;
    SplitParts([account, "vaults", vault, "multipart-uploads", upload]);
    JoinSix("", account, "vaults", vault, "multipart-uploads", upload);
    assert Join(["", account, "vaults", vault, "multipart-uploads", upload], '/') == "/" + loc;
    SplitParts(["", account, "vaults", vault, "multipart-uploads", upload]);
  }

  /** The Location of a new multipart upload lacks the leading '/', so it matches no pattern
      as given. */
  lemma MultipartLocationMatchesNothing(account: string, vault: string, upload: Uuid)
    requires IsAccount(account) && IsVaultName(vault)
    ensures RouteOf(GetMultipartLocation(account, vault, upload)).None?
  {
    NoSlash(account);
    NoSlash(vault);
    UuidIsResourceId(upload);
    NoSlashInId(upload);
    MultipartLocationPieces(account, vault, upload);
    assert account != "";
  }

  /** With the '/' added, the Location of a new multipart upload routes to the multipart
      handler with that upload id. */
  lemma SlashedMultipartLocationRoutes(account: string, vault: string, upload: Uuid)
    requires IsAccount(account) && IsVaultName(vault)
    ensures RouteOf("/" + GetMultipartLocation(account, vault, upload)) ==
      Some(Route(MultipartHandler, map["account" := account, "vault" := vault, "upload" := upload], ["account", "vault", "upload"]))
  {
    NoSlash(account);
    NoSlash(vault);
    UuidIsResourceId(upload);
    NoSlashInId(upload);
    MultipartLocationPieces(account, vault, upload);
    UploadPathRoutes("/" + GetMultipartLocation(account, vault, upload), account, vault, upload);
  }

  /** A path whose pieces are an upload's resource path routes to the multipart handler. */
  lemma UploadPathRoutes(path: string, account: string, vault: string, upload: string)
    requires IsAccount(account) && IsVaultName(vault) && IsResourceId(upload)
    requires Split(path, '/') == ["", account, "vaults", vault, "multipart-uploads", upload]
    ensures RouteOf(path) ==
      Some(Route(MultipartHandler, map["account" := account, "vault" := vault, "upload" := upload], ["account", "vault", "upload"]))
  {
    assert "multipart-uploads"[0] != "jobs"[0] && "multipart-uploads"[0] != "archives"[0];
    assert MatchJobs(path).None? && MatchCollection(path, "archives", "archive").None?;
  }

  /** "/{account}/vaults" matches only the vaults pattern, with the account group and no vault
      group, so it reaches the vault list. */
  lemma AccountListsVaults(account: string)
    requires IsAccount(account)
    ensures RouteOf("/" + account + "/vaults") == Some(Route(VaultHandler, map["account" := account], ["account", "vault"]))
  {
    ThreePieces(account);
  }

  /** The paths the test suite checks match the vaults pattern and reach the vault list with
      only an account. */
  lemma TestPathsListVaults()
    ensures RouteOf("/123456789123/vaults") == Some(Route(VaultHandler, map["account" := "123456789123"], ["account", "vault"]))
    ensures RouteOf("/-/vaults") == Some(Route(VaultHandler, map["account" := "-"], ["account", "vault"]))
  {
    var account := "123456789123";
    assert forall i :: 0 <= i < 12 ==> IsDigit(account[i]);
    AccountListsVaults(account);
    assert "/123456789123/vaults" == "/" + account + "/vaults";
    AccountListsVaults("-");
    assert "/-/vaults" == "/" + "-" + "/vaults";
  }

  lemma ThreePieces(account: string)
    requires IsAccount(account)
    ensures Split("/" + account + "/vaults", '/') == ["", account, "vaults"]
  {
    NoSlash(account);
    var parts := ["", account, "vaults"];
    JoinThree("", account, "vaults");
    assert Join(parts, '/') == "/" + account + "/vaults";
    SplitParts(parts);
  }
}
