/** Workspaces and Workspace of the accounts client
    (src/dbacademy/clients/dougrest/accounts/workspaces.py): assembling the spec a workspace is
    created from, wrapping listed records, finding a workspace by deployment name, and the
    verdict wait_until_ready gives once polling has stopped. Lookups by name and the listing
    are parameters; records are string-keyed dicts of strings. */
module AccountWorkspaces {
  import opened Wrappers

  /** A JSON object as returned by the accounts API, with string values. */
  type Record = map<string, string>

  /** The exceptions raised on these paths. */
  datatype WorkspaceError =
    | ApiError(message: string, httpCode: Option<int>)  // DatabricksApiException
    | KeyError(key: string)
    | InvalidResponse(item: Record)                     // ValueError of _wrap
    | TypeError(message: string)

  const StatusFailed := "FAILED"
  const StatusRunning := "RUNNING"
  const StatusProvisioning := "PROVISIONING"

  // ---------------------------------------------------------------------------
  // wait_until_ready
  // ---------------------------------------------------------------------------

  /** What wait_until_ready returns once workspace_status is no longer PROVISIONING: False for
      FAILED, False for anything else but RUNNING, True for RUNNING. */
  function ReadyVerdict(finalStatus: Option<string>): (ready: bool)
    ensures ready <==> finalStatus == Some(StatusRunning)
  {
    if finalStatus == Some(StatusFailed) then false
    else if finalStatus != Some(StatusRunning) then false
    else true
  }

  // ---------------------------------------------------------------------------
  // _wrap and get_by_deployment_name
  // ---------------------------------------------------------------------------

  /** A Workspace object: the host it talks to and the record it was built from. */
  datatype Workspace = Workspace(hostname: string, data: Record)

  const HostSuffix := ".cloud.databricks.com"

  /** Workspaces._wrap: a record without "workspace_id" is rejected; None cannot be searched
      for a key; the Workspace's host is the deployment name followed by .cloud.databricks.com,
      and a record without a deployment name cannot be concatenated with it. */
  function Wrap(item: Option<Record>): (r: Result<Workspace, WorkspaceError>)
    ensures item.None? ==> r.Failure? && r.error.TypeError?
    ensures item.Some? && "workspace_id" !in item.value ==> r == Failure(InvalidResponse(item.value))
    ensures item.Some? && "workspace_id" in item.value && "deployment_name" in item.value ==>
              r == Success(Workspace(item.value["deployment_name"] + HostSuffix, item.value))
    ensures item.Some? && "workspace_id" in item.value && "deployment_name" !in item.value ==>
              r.Failure? && r.error.TypeError?
  {
    match item
    case None => Failure(TypeError("argument of type 'NoneType' is not iterable"))
    case Some(record) =>
      if "workspace_id" !in record then Failure(InvalidResponse(record))
      else if "deployment_name" !in record then Failure(TypeError("unsupported operand type(s) for +: 'NoneType' and 'str'"))
      else Success(Workspace(record["deployment_name"] + HostSuffix, record))
  }

  /** Where the search of get_by_deployment_name stops: the first record that lacks
      "deployment_name" or whose deployment_name is name, or the end of the list. */
  function SearchEnd(items: seq<Record>, name: string): (k: nat)
    ensures k <= |items|
    ensures forall j :: 0 <= j < k ==> "deployment_name" in items[j] && items[j]["deployment_name"] != name
    ensures k < |items| ==> "deployment_name" !in items[k] || items[k]["deployment_name"] == name
    decreases |items|
  {
    if items == [] || "deployment_name" !in items[0] || items[0]["deployment_name"] == name then 0
    else 1 + SearchEnd(items[1..], name)
  }

  /** next((item for item in items if item["deployment_name"] == name), None): the first record
      whose deployment_name is name; a record met before it without that key raises KeyError. */
  function FindByDeploymentName(items: seq<Record>, name: string): (r: Result<Option<Record>, WorkspaceError>)
    ensures var k := SearchEnd(items, name);
            && (k == |items| ==> r == Success(None))
            && (k < |items| && "deployment_name" !in items[k] ==> r == Failure(KeyError("deployment_name")))
            && (k < |items| && "deployment_name" in items[k] ==> r == Success(Some(items[k])))
    ensures r == Success(None) <==> forall k :: 0 <= k < |items| ==> "deployment_name" in items[k] && items[k]["deployment_name"] != name
    decreases |items|
  {
    if items == [] then Success(None)
    else if "deployment_name" !in items[0] then Failure(KeyError("deployment_name"))
    else if items[0]["deployment_name"] == name then Success(Some(items[0]))
    else
      assert forall j :: 0 <= j < |items| - 1 ==> items[1..][j] == items[j + 1];
      FindByDeploymentName(items[1..], name)
  }

  /** A record whose deployment_name is name, preceded only by records that have the key, is
      found: the search returns a record with that name, never None and never KeyError. */
  lemma PresentIsFound(items: seq<Record>, name: string, k: nat)
    requires k < |items| && forall j :: 0 <= j <= k ==> "deployment_name" in items[j]
    requires items[k]["deployment_name"] == name
    ensures var r := FindByDeploymentName(items, name);
            r.Success? && r.value.Some? && r.value.value["deployment_name"] == name
  {
  }

  function NotFoundMessage(name: string): string
  {
    "workspace with deployment_name '" + name + "' not found"
  }

  /** get_by_deployment_name: wraps the first match; with no match it raises a 404 when
      if_not_exists is "error", and otherwise fails in _wrap, which is given None. */
  function GetByDeploymentName(items: seq<Record>, name: string, ifNotExists: string): (r: Result<Workspace, WorkspaceError>)
    ensures var found := FindByDeploymentName(items, name);
            && (found.Failure? ==> r == Failure(found.error))
            && (found.Success? && found.value.Some? ==> r == Wrap(found.value))
            && (found == Success(None) && ifNotExists == "error" ==> r == Failure(ApiError(NotFoundMessage(name), Some(404))))
            && (found == Success(None) && ifNotExists != "error" ==> r.Failure? && r.error.TypeError?)
    ensures r.Success? ==> var k := SearchEnd(items, name);
                           k < |items| && r.value.data == items[k] && items[k]["deployment_name"] == name
  {
    var found :- FindByDeploymentName(items, name);
    if found.None? && ifNotExists == "error" then Failure(ApiError(NotFoundMessage(name), Some(404)))
    else Wrap(found)
  }

  // ---------------------------------------------------------------------------
  // create: resolving ids
  // ---------------------------------------------------------------------------

  /** The three ways an id may be given: the id itself, the object holding it, or a name to
      look the object up by. None stands for an argument left at its default. */
  datatype IdSource = IdSource(id: Option<string>, obj: Option<Record>, name: Option<string>)

  /** The account collections create looks names up in. */
  datatype Collection = Credentials | StorageConfigurations | Networks | PrivateAccessSettings | Keys

  predicate TruthyStr(s: Option<string>) { s.Some? && s.value != "" }
  predicate TruthyRecord(r: Option<Record>) { r.Some? && |r.value| > 0 }

  /** The message of both required chains (the storage chain repeats the credentials text). */
  const MissingIdMessage := "Must provide one of credentials, credentials_id, or credentials_name"

  /** One if/elif chain of create: a truthy id is kept; otherwise a truthy object gives its key;
      otherwise a truthy name is looked up and the result gives its key; otherwise a required id
      raises and an optional one keeps the (falsy) value it was given. */
  function ResolveId(src: IdSource, key: string, collection: Collection, required: bool,
                     lookup: (Collection, string) -> Record): (r: Result<Option<string>, WorkspaceError>)
    ensures TruthyStr(src.id) ==> r == Success(src.id)
    ensures !TruthyStr(src.id) && TruthyRecord(src.obj) ==>
              r == (if key in src.obj.value then Success(Some(src.obj.value[key])) else Failure(KeyError(key)))
    ensures !TruthyStr(src.id) && !TruthyRecord(src.obj) && TruthyStr(src.name) ==>
              var found := lookup(collection, src.name.value);
              r == (if key in found then Success(Some(found[key])) else Failure(KeyError(key)))
    ensures !TruthyStr(src.id) && !TruthyRecord(src.obj) && !TruthyStr(src.name) ==>
              r == (if required then Failure(ApiError(MissingIdMessage, None)) else Success(src.id))
  {
    if TruthyStr(src.id) then Success(src.id)
    else if TruthyRecord(src.obj) then
      (if key in src.obj.value then Success(Some(src.obj.value[key])) else Failure(KeyError(key)))
    else if TruthyStr(src.name) then
      var found := lookup(collection, src.name.value);
      if key in found then Success(Some(found[key])) else Failure(KeyError(key))
    else if required then Failure(ApiError(MissingIdMessage, None))
    else Success(src.id)
  }

  /** The arguments of create that reach the spec. */
  datatype CreateArgs = CreateArgs(
    workspaceName: Option<string>, deploymentName: Option<string>, region: Option<string>,
    pricingTier: Option<string>,
    credentials: IdSource, storageConfiguration: IdSource, network: IdSource,
    privateAccessSettings: IdSource, servicesEncryptionKey: IdSource, storageEncryptionKey: IdSource)

  /** The six resolved ids, in the order create resolves them. */
  datatype Ids = Ids(credentialsId: Option<string>, storageConfigurationId: Option<string>,
                     networkId: Option<string>, privateAccessSettingsId: Option<string>,
                     servicesKeyId: Option<string>, storageKeyId: Option<string>)

  /** The six chains in order; the first exception ends create. */
  function ResolveIds(a: CreateArgs, lookup: (Collection, string) -> Record): (r: Result<Ids, WorkspaceError>)
  {
    var credentialsId :- ResolveId(a.credentials, "credentials_id", Credentials, true, lookup);
    var storageId :- ResolveId(a.storageConfiguration, "storage_configuration_id", StorageConfigurations, true, lookup);
    var networkId :- ResolveId(a.network, "network_id", Networks, false, lookup);
    var privateAccessId :- ResolveId(a.privateAccessSettings, "private_access_settings_id", PrivateAccessSettings, false, lookup);
    var servicesKeyId :- ResolveId(a.servicesEncryptionKey, "customer_managed_key_id", Keys, false, lookup);
    var storageKeyId :- ResolveId(a.storageEncryptionKey, "customer_managed_key_id", Keys, false, lookup);
    Success(Ids(credentialsId, storageId, networkId, privateAccessId, servicesKeyId, storageKeyId))
  }

  /** The keys of the spec dict, in insertion order. */
  const SpecKeys := ["workspace_name", "deployment_name", "aws_region", "pricing_tier", "credentials_id",
                     "storage_configuration_id", "network_id", "private_access_settings_id",
                     "managed_services_customer_managed_key_id", "storage_customer_managed_key_id"]

  /** The spec dict before filtering; region goes under "aws_region". */
  function FullSpec(a: CreateArgs, ids: Ids): (spec: map<string, Option<string>>)
    ensures spec.Keys == set k | k in SpecKeys
  {
    map["workspace_name" := a.workspaceName,
        "deployment_name" := a.deploymentName,
        "aws_region" := a.region,
        "pricing_tier" := a.pricingTier,
        "credentials_id" := ids.credentialsId,
        "storage_configuration_id" := ids.storageConfigurationId,
        "network_id" := ids.networkId,
        "private_access_settings_id" := ids.privateAccessSettingsId,
        "managed_services_customer_managed_key_id" := ids.servicesKeyId,
        "storage_customer_managed_key_id" := ids.storageKeyId]
  }

  /** A value the filter keeps: neither None nor "". */
  predicate Kept(v: Option<string>) {
    v != None && v != Some("")
  }

  /** The spec with the None and "" entries removed. */
  function Filtered(spec: map<string, Option<string>>): map<string, Option<string>>
  {
    map k | k in spec && Kept(spec[k]) :: spec[k]
  }

  /** Workspaces.create up to the request it sends: resolves the six ids in order, builds the
      spec and deletes its None and "" entries in a loop over a snapshot of its items. */
  method Create(a: CreateArgs, lookup: (Collection, string) -> Record)
    returns (r: Result<map<string, Option<string>>, WorkspaceError>)
    ensures ResolveIds(a, lookup).Failure? ==> r == Failure(ResolveIds(a, lookup).error)
    ensures ResolveIds(a, lookup).Success? ==> r == Success(Filtered(FullSpec(a, ResolveIds(a, lookup).value)))
    ensures r.Success? ==> forall k :: k in r.value ==> Kept(r.value[k])
  {
    var credentialsId :- ResolveId(a.credentials, "credentials_id", Credentials, true, lookup);
    var storageId :- ResolveId(a.storageConfiguration, "storage_configuration_id", StorageConfigurations, true, lookup);
    var networkId :- ResolveId(a.network, "network_id", Networks, false, lookup);
    var privateAccessId :- ResolveId(a.privateAccessSettings, "private_access_settings_id", PrivateAccessSettings, false, lookup);
    var servicesKeyId :- ResolveId(a.servicesEncryptionKey, "customer_managed_key_id", Keys, false, lookup);
    var storageKeyId :- ResolveId(a.storageEncryptionKey, "customer_managed_key_id", Keys, false, lookup);
    var ids := Ids(credentialsId, storageId, networkId, privateAccessId, servicesKeyId, storageKeyId);
    assert ResolveIds(a, lookup) == Success(ids);
    var spec := DropUnset(FullSpec(a, ids), SpecKeys);
    return Success(spec);
  }

  /** The deletion loop of create: over a snapshot of the spec's items, taken in the order of
      keys, every entry whose value is None or "" is deleted from the spec. */
  method DropUnset(items: map<string, Option<string>>, keys: seq<string>) returns (spec: map<string, Option<string>>)
    requires items.Keys == set k | k in keys
    ensures spec == Filtered(items)
    ensures forall k :: k in spec ==> Kept(spec[k])
  {
    spec := items;
    for i := 0 to |keys|
      invariant forall k :: k in spec <==> k in items && (k in keys[..i] ==> Kept(items[k]))
      invariant forall k :: k in spec ==> spec[k] == items[k]
    {
      assert keys[..i + 1] == keys[..i] + [keys[i]];
      var key := keys[i];
      var value := items[key];
      if value == None || value == Some("") {
        spec := spec - {key};
      }
    }
    assert keys[..|keys|] == keys;
    assert forall k :: k in spec <==> k in Filtered(items);
  }

  // ---------------------------------------------------------------------------
  // Lemmas about create
  // ---------------------------------------------------------------------------

  /** Without credentials, credentials_id or credentials_name, create raises. */
  lemma MissingCredentialsRaises(a: CreateArgs, lookup: (Collection, string) -> Record)
    requires !TruthyStr(a.credentials.id) && !TruthyRecord(a.credentials.obj) && !TruthyStr(a.credentials.name)
    ensures ResolveIds(a, lookup) == Failure(ApiError(MissingIdMessage, None))
  {
  }

  /** With credentials resolved but no storage configuration given, create raises with the
      same credentials message. */
  lemma MissingStorageRaisesCredentialsMessage(a: CreateArgs, lookup: (Collection, string) -> Record)
    requires ResolveId(a.credentials, "credentials_id", Credentials, true, lookup).Success?
    requires !TruthyStr(a.storageConfiguration.id) && !TruthyRecord(a.storageConfiguration.obj)
             && !TruthyStr(a.storageConfiguration.name)
    ensures ResolveIds(a, lookup) == Failure(ApiError(MissingIdMessage, None))
  {
  }

  /** Optional ids never raise when nothing is given for them: the entry is then dropped. */
  lemma {:induction false} UnsetOptionalIdIsDropped(a: CreateArgs, lookup: (Collection, string) -> Record)
    requires ResolveIds(a, lookup).Success?
    requires !TruthyStr(a.network.id) && !TruthyRecord(a.network.obj) && !TruthyStr(a.network.name)
    ensures "network_id" !in Filtered(FullSpec(a, ResolveIds(a, lookup).value))
  {
    var ids := ResolveIds(a, lookup).value;
    assert ids.networkId == a.network.id;
    assert !Kept(FullSpec(a, ids)["network_id"]);
  }

  /** A given region reaches the spec under "aws_region", and an explicit credentials id
      wins over an object or a name. */
  lemma {:induction false} RegionAndExplicitCredentials(a: CreateArgs, lookup: (Collection, string) -> Record)
    requires ResolveIds(a, lookup).Success?
    requires TruthyStr(a.region) && TruthyStr(a.credentials.id)
    ensures var spec := Filtered(FullSpec(a, ResolveIds(a, lookup).value));
            && "aws_region" in spec && spec["aws_region"] == a.region
            && "credentials_id" in spec && spec["credentials_id"] == a.credentials.id
  {
    var ids := ResolveIds(a, lookup).value;
    assert ids.credentialsId == a.credentials.id;
    assert FullSpec(a, ids)["aws_region"] == a.region;
  }

  /** Filtering keeps exactly the entries that are neither None nor "", unchanged. */
  lemma FilteredKeepsTheRest(spec: map<string, Option<string>>, k: string)
    ensures k in Filtered(spec) <==> k in spec && Kept(spec[k])
    ensures k in Filtered(spec) ==> Filtered(spec)[k] == spec[k]
  {
  }
}
