// Vault.java: list, describe, create and delete vaults. A vault is a container of the store.

module Vault {
  import opened Options
  import opened Http
  import opened Util
  import opened BlobStore
  import opened GlacierProxy
  import opened Listings

  /** The VaultList entry for one container: both dates are the container's creation date,
      the size is always -1 and the archive count always 0. */
  function ListEntry(account: string, name: string, c: Container): VaultEntry {
    VaultEntry(c.creationDate, c.creationDate, -1, Some(0), name, GetArn(account, name))
  }

  /** A listing that names every container exactly once, each with its entry. */
  ghost predicate ListsContainers(entries: seq<VaultEntry>, s: Store, account: string) {
    Lists(entries, s, (name, c) => ListEntry(account, name, c), (e: VaultEntry) => e.vaultName)
  }

  /** The loop over the store's container listing; the store gives no particular order. */
  method ListVaults(s: Store, account: string) returns (entries: seq<VaultEntry>)
    ensures ListsContainers(entries, s, account)
    ensures |entries| == |s.Keys|
    ensures forall i :: 0 <= i < |entries| ==> entries[i].sizeInBytes == -1 && entries[i].numberOfArchives == Some(0)
  {
    entries := ListAll(s, (name, c) => ListEntry(account, name, c), (e: VaultEntry) => e.vaultName);
  }

  /** handleDescribe: NotFound for a vault the store lacks; otherwise its dates, size -1,
      ARN and name. */
  function Describe(s: Store, account: string, vault: string): (r: Response)
    ensures vault !in s ==> r == NotFound("vault", Some(vault))
    ensures vault in s ==> r.status == OK && r.body.VaultDescription?
    ensures vault in s ==> r.body.vault.vaultName == vault && r.body.vault.vaultArn == GetArn(account, vault)
    ensures vault in s ==> r.body.vault.sizeInBytes == -1 && r.body.vault.creationDate == s[vault].creationDate
  {
    if vault !in s then NotFound("vault", Some(vault))
    else
      var c := s[vault];
      Json(OK, VaultDescription(VaultEntry(c.creationDate, c.creationDate, -1, None, vault, GetArn(account, vault))))
  }

  /** handleGet: describe when a vault is named, otherwise list every vault with the store's
      next marker (null when it gives none). */
  ghost predicate GetAnswer(o: Outcome, p: Proxy, params: map<string, string>, env: Env)
    reads p
  {
    if "vault" in params then o == Answered(Describe(p.containers, FormatParam(params, "account"), params["vault"]))
    else
      && o.thrown == None && o.sent.Some? && o.sent.value.status == OK
      && o.sent.value.body.VaultList? && o.sent.value.body.marker == env.nextMarker
      && ListsContainers(o.sent.value.body.vaults, p.containers, FormatParam(params, "account"))
  }

  method HandleGet(p: Proxy, params: map<string, string>, env: Env) returns (o: Outcome)
    ensures GetAnswer(o, p, params, env)
  {
    if "vault" in params {
      return Answered(Describe(p.containers, FormatParam(params, "account"), params["vault"]));
    }
    var entries := ListVaults(p.containers, FormatParam(params, "account"));
    o := Answered(Json(OK, VaultList(env.nextMarker, entries)));
  }

  /** The Location of a created vault, "/{account}/vaults/{vault}". */
  function VaultLocation(account: string, vault: string): string {
    "/" + account + "/vaults/" + vault
  }

  /** handlePut: creates the vault's container (no change if it exists) and answers 201. */
  twostate predicate PutAnswer(p: Proxy, params: map<string, string>, env: Env, o: Outcome)
    reads p
  {
    && (if "vault" !in params then o == Answered(BadRequest("Missing vault name")) && p.containers == old(p.containers)
        else
          && o == Answered(Response(CREATED, map["Location" := VaultLocation(FormatParam(params, "account"), params["vault"])], NoBody))
          && p.containers == CreateContainer(old(p.containers), params["vault"], env.now))
    && p.jobMap == old(p.jobMap) && p.uploads == old(p.uploads)
  }

  method HandlePut(p: Proxy, params: map<string, string>, env: Env) returns (o: Outcome)
    modifies p
    ensures PutAnswer(p, params, env, o)
  {
    if "vault" !in params {
      return Answered(BadRequest("Missing vault name"));
    }
    var vault := params["vault"];
    p.containers := CreateContainer(p.containers, vault, env.now);
    o := Answered(Response(CREATED, map["Location" := VaultLocation(FormatParam(params, "account"), vault)], NoBody));
  }

  /** handleDelete: removes the vault only when it holds no blobs; a vault that holds some is
      answered BadRequest and kept. */
  twostate predicate DeleteAnswer(p: Proxy, params: map<string, string>, o: Outcome)
    reads p
  {
    && (if "vault" !in params then o == Answered(BadRequest("Missing vault name")) && p.containers == old(p.containers)
        else if !DeleteContainerIfEmpty(old(p.containers), params["vault"]).0 then
          o == Answered(BadRequest("Failed to delete vault. Vault possibly not empty")) && p.containers == old(p.containers)
        else o == Answered(Status(NO_CONTENT)) && p.containers == old(p.containers) - {params["vault"]})
    && p.jobMap == old(p.jobMap) && p.uploads == old(p.uploads)
  }

  method HandleDelete(p: Proxy, params: map<string, string>) returns (o: Outcome)
    modifies p
    ensures DeleteAnswer(p, params, o)
  {
    if "vault" !in params {
      return Answered(BadRequest("Missing vault name"));
    }
    var vault := params["vault"];
    var (deleted, after) := DeleteContainerIfEmpty(p.containers, vault);
    if !deleted {
      return Answered(BadRequest("Failed to delete vault. Vault possibly not empty"));
    }
    p.containers := after;
    o := Answered(Status(NO_CONTENT));
  }

  /** A vault that was just created is described with its own name and ARN, can be deleted
      at once, and is then NotFound; creating it twice is the same as creating it once. */
  lemma {:induction false} VaultLifecycle(s: Store, account: string, vault: string, now: string, later: string)
    ensures Describe(CreateContainer(s, vault, now), account, vault).status == OK
    ensures CreateContainer(CreateContainer(s, vault, now), vault, later) == CreateContainer(s, vault, now)
    ensures vault !in s ==> DeleteContainerIfEmpty(CreateContainer(s, vault, now), vault) == (true, s)
    ensures vault !in s ==> Describe(DeleteContainerIfEmpty(CreateContainer(s, vault, now), vault).1, account, vault)
                            == NotFound("vault", Some(vault))
  {
    if vault !in s {
      var t := CreateContainer(s, vault, now);
      assert t - {vault} == s;
    }
  }

  /** Deleting a vault that holds an archive fails and leaves every vault in place. */
  lemma DeleteKeepsArchives(s: Store, vault: string, name: string)
    requires vault in s && name in s[vault].blobs
    ensures DeleteContainerIfEmpty(s, vault) == (false, s)
  {
    assert s[vault].blobs != map[];
  }
}
