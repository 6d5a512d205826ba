// BaseRequestHandler.java: every handler dispatches on the HTTP method. GET, POST, PUT and
// DELETE go to the handler's own method, or answer 405 where the handler does not override
// it; any other method raises IllegalArgumentException, which escapes. An IOException raised
// while handling is caught and answered 500 (a second IOException from that answer is only
// printed).

module BaseRequestHandler {
  import opened Options
  import opened Http
  import opened GlacierProxy
  import Job
  import Archive
  import Multipart
  import Vault

  /** The four handlers the router chooses between. */
  datatype HandlerKind = JobHandler | ArchiveHandler | MultipartHandler | VaultHandler

  /** The request methods handleRequest's switch knows. */
  predicate IsDispatched(verb: string) {
    verb == "GET" || verb == "POST" || verb == "PUT" || verb == "DELETE"
  }

  /** Which handler methods each handler overrides: Job has GET and POST, Archive POST and
      DELETE, Multipart all four, Vault GET, PUT and DELETE. */
  predicate Overrides(kind: HandlerKind, verb: string) {
    match kind
    case JobHandler => verb == "GET" || verb == "POST"
    case ArchiveHandler => verb == "POST" || verb == "DELETE"
    case MultipartHandler => IsDispatched(verb)
    case VaultHandler => verb == "GET" || verb == "PUT" || verb == "DELETE"
  }

  /** The catch clause: an IOException becomes a 500 when nothing has been sent yet, and is
      otherwise swallowed; any other outcome passes through unchanged. */
  function CatchIo(o: Outcome): (r: Outcome)
    ensures r.thrown != Some(IOException)
    ensures o.thrown != Some(IOException) ==> r == o
    ensures o.thrown == Some(IOException) ==> r.thrown.None? && r.sent.Some?
    ensures o.sent.Some? ==> r.sent == o.sent
    ensures o.thrown == Some(IOException) && o.sent.None? ==> r.sent == Some(Status(INTERNAL_SERVER_ERROR))
  {
    if o.thrown == Some(IOException) then
      Send(Outcome(o.sent, None), Status(INTERNAL_SERVER_ERROR)).(thrown := None)
    else o
  }

  /** No handler state changes: the store, the job index, the upload index and every upload's parts. */
  twostate predicate Unchanged(p: Proxy)
    reads p, p.uploads.Values
  {
    p.containers == old(p.containers) && p.jobMap == old(p.jobMap) && Multipart.PartsKept(p)
  }

  /** What the handler method the verb selects answers, and what it changes: the handlers
      that only read leave everything as it was, and those that write keep to their own part
      of the state. */
  twostate predicate Dispatched(kind: HandlerKind, p: Proxy, req: Request, params: map<string, string>, env: Env, handled: Outcome)
    requires p.Valid() && (kind != VaultHandler ==> "vault" in params) && Overrides(kind, req.verb)
    reads p, p.uploads.Values
  {
    match kind
    case JobHandler => JobDispatched(p, req, params, env, handled)
    case ArchiveHandler => ArchiveDispatched(p, req, params, env, handled)
    case MultipartHandler => MultipartDispatched(p, req, params, env, handled)
    case VaultHandler => VaultDispatched(p, req, params, env, handled)
  }

  /** GET is handleGet, POST handlePost. */
  twostate predicate JobDispatched(p: Proxy, req: Request, params: map<string, string>, env: Env, handled: Outcome)
    requires p.Valid() && "vault" in params && Overrides(JobHandler, req.verb)
    reads p, p.uploads.Values
  {
    if req.verb == "GET" then Job.GetAnswer(handled, p, req, params, env) && Unchanged(p)
    else Job.PostAnswer(p, req, params, env, handled) && Multipart.PartsKept(p)
  }

  /** POST is handlePost, DELETE handleDelete. */
  twostate predicate ArchiveDispatched(p: Proxy, req: Request, params: map<string, string>, env: Env, handled: Outcome)
    requires "vault" in params && Overrides(ArchiveHandler, req.verb)
    reads p, p.uploads.Values
  {
    if req.verb == "POST" then Archive.PostAnswer(p, req, params, env, handled) && Multipart.PartsKept(p)
    else Archive.DeleteAnswer(p, params, handled) && Multipart.PartsKept(p)
  }

  /** GET lists, POST creates or completes, PUT receives a part, DELETE aborts. */
  twostate predicate MultipartDispatched(p: Proxy, req: Request, params: map<string, string>, env: Env, handled: Outcome)
    requires "vault" in params && Overrides(MultipartHandler, req.verb)
    reads p, p.uploads.Values
  {
    if req.verb == "GET" then Multipart.GetAnswer(handled, p, req, params, env) && Unchanged(p)
    else if req.verb == "POST" then Multipart.PostAnswer(p, req, params, env, handled)
    else if req.verb == "PUT" then
      Multipart.PutAnswer(p, req, params, env, handled) && p.containers == old(p.containers) && p.jobMap == old(p.jobMap)
    else Multipart.AbortAnswer(handled, p, params) && Unchanged(p)
  }

  /** GET describes or lists, PUT creates, DELETE deletes. */
  twostate predicate VaultDispatched(p: Proxy, req: Request, params: map<string, string>, env: Env, handled: Outcome)
    requires Overrides(VaultHandler, req.verb)
    reads p, p.uploads.Values
  {
    if req.verb == "GET" then Vault.GetAnswer(handled, p, params, env) && Unchanged(p)
    else if req.verb == "PUT" then Vault.PutAnswer(p, params, env, handled) && Multipart.PartsKept(p)
    else Vault.DeleteAnswer(p, params, handled) && Multipart.PartsKept(p)
  }

  /** handleRequest: the verb decides the handler method; 405 for a method the handler does
      not override; IOException never escapes. The handlers for a vault's jobs, archives and
      uploads are only reached with a vault name, which the router guarantees. `handled` is
      what the selected handler method produced before the catch clause. */
  method HandleRequest(kind: HandlerKind, p: Proxy, req: Request, params: map<string, string>, env: Env)
    returns (o: Outcome, ghost handled: Outcome)
    requires p.Valid() && (kind != VaultHandler ==> "vault" in params)
    modifies p, p.uploads.Values
    ensures p.Valid()
    ensures !IsDispatched(req.verb) ==> o == Threw(IllegalArgument) && Unchanged(p)
    ensures IsDispatched(req.verb) && !Overrides(kind, req.verb) ==> o == Answered(Status(METHOD_NOT_ALLOWED)) && Unchanged(p)
    ensures Overrides(kind, req.verb) ==> Dispatched(kind, p, req, params, env, handled) && o == CatchIo(handled)
    ensures o.thrown != Some(IOException)
  {
    if !IsDispatched(req.verb) {
      return Threw(IllegalArgument), Threw(IllegalArgument);
    }
    if !Overrides(kind, req.verb) {
      return Answered(Status(METHOD_NOT_ALLOWED)), Answered(Status(METHOD_NOT_ALLOWED));
    }
    var answer := Dispatch(kind, p, req, params, env);
    o, handled := CatchIo(answer), answer;
  }

  /** The handler method the verb selects. */
  method Dispatch(kind: HandlerKind, p: Proxy, req: Request, params: map<string, string>, env: Env) returns (handled: Outcome)
    requires p.Valid() && (kind != VaultHandler ==> "vault" in params) && Overrides(kind, req.verb)
    modifies p, p.uploads.Values
    ensures p.Valid()
    ensures Dispatched(kind, p, req, params, env, handled)
  {
    match kind {
      case JobHandler => handled := DispatchJob(p, req, params, env);
      case ArchiveHandler => handled := DispatchArchive(p, req, params, env);
      case MultipartHandler => handled := DispatchMultipart(p, req, params, env);
      case VaultHandler => handled := DispatchVault(p, req, params, env);
    }
  }

  method DispatchJob(p: Proxy, req: Request, params: map<string, string>, env: Env) returns (handled: Outcome)
    requires p.Valid() && "vault" in params && Overrides(JobHandler, req.verb)
    modifies p
    ensures p.Valid()
    ensures JobDispatched(p, req, params, env, handled)
  {
    if req.verb == "GET" {
      handled := Job.HandleGet(p, req, params, env);
    } else {
      handled := Job.HandlePost(p, req, params, env);
    }
  }

  method DispatchArchive(p: Proxy, req: Request, params: map<string, string>, env: Env) returns (handled: Outcome)
    requires p.Valid() && "vault" in params && Overrides(ArchiveHandler, req.verb)
    modifies p
    ensures p.Valid()
    ensures ArchiveDispatched(p, req, params, env, handled)
  {
    if req.verb == "POST" {
      handled := Archive.HandlePost(p, req, params, env);
    } else {
      handled := Archive.HandleDelete(p, params);
    }
  }

  /** The multipart handler's four methods, in two halves: GET and DELETE only read. */
  method DispatchMultipart(p: Proxy, req: Request, params: map<string, string>, env: Env) returns (handled: Outcome)
    requires p.Valid() && "vault" in params && Overrides(MultipartHandler, req.verb)
    modifies p, p.uploads.Values
    ensures p.Valid()
    ensures MultipartDispatched(p, req, params, env, handled)
  {
    if req.verb == "GET" || req.verb == "DELETE" {
      handled := QueryMultipart(p, req, params, env);
    } else {
      handled := UpdateMultipart(p, req, params, env);
    }
  }

  method QueryMultipart(p: Proxy, req: Request, params: map<string, string>, env: Env) returns (handled: Outcome)
    requires p.Valid() && "vault" in params && (req.verb == "GET" || req.verb == "DELETE")
    ensures MultipartDispatched(p, req, params, env, handled)
  {
    if req.verb == "GET" {
      handled := Multipart.HandleGet(p, req, params, env);
    } else {
      handled := Multipart.Abort(p, params);
    }
  }

  method UpdateMultipart(p: Proxy, req: Request, params: map<string, string>, env: Env) returns (handled: Outcome)
    requires p.Valid() && "vault" in params && (req.verb == "POST" || req.verb == "PUT")
    modifies p, p.uploads.Values
    ensures p.Valid()
    ensures MultipartDispatched(p, req, params, env, handled)
  {
    if req.verb == "POST" {
      handled := Multipart.HandlePost(p, req, params, env);
    } else {
      handled := Multipart.HandlePut(p, req, params, env);
    }
  }

  method DispatchVault(p: Proxy, req: Request, params: map<string, string>, env: Env) returns (handled: Outcome)
    requires p.Valid() && Overrides(VaultHandler, req.verb)
    modifies p
    ensures p.Valid()
    ensures VaultDispatched(p, req, params, env, handled)
  {
    if req.verb == "GET" {
      handled := Vault.HandleGet(p, params, env);
    } else if req.verb == "PUT" {
      handled := Vault.HandlePut(p, params, env);
    } else {
      handled := Vault.HandleDelete(p, params);
    }
  }

  /** A job recorded for a vault that does not exist: the handler has already answered 404
      when its 202 fails, and the caught IOException leaves the client with the 404. */
  lemma SecondAnswerIsDropped(first: Response)
    ensures CatchIo(Send(Answered(first), Status(ACCEPTED))) == Answered(first)
  {
  }
}
