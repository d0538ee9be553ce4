/** `ADT3DSceneAdapter`: the storage container it is bound to, the memoised
    Azure Data Explorer connection of its Digital Twins instance, and the
    check and repair of the caller's role assignments on the container. */
module SceneAdapter {
  import opened Wrappers
  import opened JsValues
  import opened Strings
  import opened AdapterData
  import opened Urls

  // ---------------------------------------------------------------------
  // Container URLs

  /** `s.split(sep)[i]`; `None` is `undefined`, past the last piece. */
  function PieceAt(s: string, sep: string, i: nat): (r: Option<string>)
    requires |sep| > 0
    ensures r.Some? <==> i < |Split(s, sep)|
  {
    var pieces := Split(s, sep);
    if i < |pieces| then Some(pieces[i]) else None
  }

  /** The storage account and container a container URL names. */
  datatype ContainerNames = ContainerNames(accountName: Option<string>, containerName: Option<string>)

  function NamesFromUrl(u: ParsedUrl): ContainerNames {
    ContainerNames(PieceAt(u.hostname, ".", 0), PieceAt(u.pathname, "/", 1))
  }

  /** The account name is the host name up to its first dot. */
  lemma AccountNameIsFirstLabel(u: ParsedUrl)
    ensures NamesFromUrl(u).accountName.Some?
    ensures var a := NamesFromUrl(u).accountName.value;
      '.' !in a && StartsWith(u.hostname, a)
      && (|a| < |u.hostname| ==> u.hostname[|a|] == '.')
  {
    FirstPieceOf(u.hostname, '.');
  }

  /** The container name is the first segment of an absolute path, and is
      missing when the path holds no slash. */
  lemma ContainerNameIsFirstSegment(u: ParsedUrl, segment: string, rest: string)
    requires u.pathname == "/" + segment + rest
    requires '/' !in segment
    requires rest == "" || rest[0] == '/'
    ensures NamesFromUrl(u).containerName == Some(segment)
  {
    assert u.pathname == [] + ['/'] + (segment + rest);
    SplitAfterPiece([], '/', segment + rest);
    FirstPieceIs(segment, rest, '/');
  }

  lemma NoContainerWithoutSlash(u: ParsedUrl)
    requires '/' !in u.pathname
    ensures NamesFromUrl(u).containerName == None
  {
    SplitWithoutSeparator(u.pathname, '/');
  }

  // ---------------------------------------------------------------------
  // Connection information

  /** `ADTInstanceConnectionData`. */
  datatype ConnectionData = ConnectionData(
    kustoClusterUrl: Option<string>,
    kustoDatabaseName: Option<string>,
    kustoTableName: Option<string>)

  /** All three memoised values are truthy, so no lookup is needed. */
  predicate IsResolved(c: ConnectionData) {
    TruthyText(c.kustoClusterUrl) && TruthyText(c.kustoDatabaseName) && TruthyText(c.kustoTableName)
  }

  /** A Digital Twins instance as the permission-filtered resource listing returns it. */
  datatype AdtInstance = AdtInstance(id: string, hostName: string, location: Option<string>)

  /** The properties of one time-series database connection. */
  datatype ConnectionProperties = ConnectionProperties(adxEndpointUri: Option<string>, adxDatabaseName: Option<string>)

  /** The management call listing an instance's time-series database
      connections: it fails, or yields the `value` array, whose entries may
      lack `properties`. */
  datatype ConnectionsResponse = RequestFailed | Connections(value: seq<Option<ConnectionProperties>>)

  /** `result.find(d => d.properties.hostName === adtHostUrl)`. */
  function FindInstance(instances: seq<AdtInstance>, host: string): (r: Option<AdtInstance>)
    ensures r.Some? ==> r.value in instances && r.value.hostName == host
    ensures r.None? ==> forall i :: 0 <= i < |instances| ==> instances[i].hostName != host
    decreases |instances|
  {
    if |instances| == 0 then None
    else if instances[0].hostName == host then Some(instances[0])
    else FindInstance(instances[1..], host)
  }

  lemma {:induction false} FindInstanceIsFirst(instances: seq<AdtInstance>, host: string, i: nat)
    requires i < |instances| && instances[i].hostName == host
    requires forall j :: 0 <= j < i ==> instances[j].hostName != host
    ensures FindInstance(instances, host) == Some(instances[i])
    decreases i
  {
    if i > 0 {
      FindInstanceIsFirst(instances[1..], host, i - 1);
    }
  }

  /** The Data History table: `adt_dh_<database with dashes as underscores>_<location>`. */
  function TableName(databaseName: string, location: Option<string>): string {
    "adt_dh_" + ReplaceAll(databaseName, "-", "_") + "_" + TemplateText(location)
  }

  /** The table name keeps the database name's pieces between dashes, joined
      by underscores, and holds no dash before the location. */
  lemma TableNameShape(databaseName: string, location: Option<string>)
    ensures var middle := Join(Split(databaseName, "-"), "_");
      TableName(databaseName, location) == "adt_dh_" + middle + "_" + TemplateText(location)
      && '-' !in middle
  {
    ReplaceAllIsSplitJoin(databaseName, "-", "_");
    ReplaceAllRemovesAll(databaseName, "-", "_");
    NoOccurrenceOfChar(ReplaceAll(databaseName, "-", "_"), '-');
  }

  /** The body of the inner `try` of the connection lookup: the values it
      leaves in the three fields, and the error it pushes when it throws.
      The fields are assigned one after the other, so a missing database
      name leaves the new cluster URL and the cleared database name behind. */
  function FetchConnection(memo: ConnectionData, instance: Option<AdtInstance>, response: ConnectionsResponse)
    : (r: (ConnectionData, seq<CardError>))
    ensures instance.None? ==> r == (memo, [Pushed(None, false)])
    ensures r.1 == [] || r.1 == [Pushed(None, false)]
    ensures r.1 == [] ==> && instance.Some? && r.0.kustoDatabaseName.Some?
                          && r.0.kustoTableName == Some(TableName(r.0.kustoDatabaseName.value, instance.value.location))
    ensures r.1 != [] ==> && r.0.kustoTableName == memo.kustoTableName
                          && (r.0 == memo || r.0.kustoDatabaseName.None?)
    ensures instance.Some? && response.Connections? && |response.value| > 0 && response.value[0].Some?
            && response.value[0].value.adxDatabaseName.Some? ==>
      var props := response.value[0].value;
      r == (ConnectionData(props.adxEndpointUri, props.adxDatabaseName,
                           Some(TableName(props.adxDatabaseName.value, instance.value.location))), [])
    ensures (response.RequestFailed? || (response.Connections? && (|response.value| == 0 || response.value[0].None?)))
            ==> r == (memo, [Pushed(None, false)])
    ensures instance.Some? && response.Connections? && |response.value| > 0 && response.value[0].Some?
            && response.value[0].value.adxDatabaseName.None? ==>
      r == (ConnectionData(response.value[0].value.adxEndpointUri, None, memo.kustoTableName), [Pushed(None, false)])
  {
    var failed := [Pushed(None, false)];
    if instance.None? || response.RequestFailed? || |response.value| == 0 || response.value[0].None? then
      (memo, failed)
    else
      var props := response.value[0].value;
      match props.adxDatabaseName
      case None =>
        (ConnectionData(props.adxEndpointUri, None, memo.kustoTableName), failed)
      case Some(db) =>
        (ConnectionData(props.adxEndpointUri, Some(db), Some(TableName(db, instance.value.location))), [])
  }

  /** One call of `getConnectionInformation`: the new memo, the result, and
      whether the management endpoints were queried. `instances` is the data
      of the permission-filtered instance listing, `None` when the listing
      has no result (reading it then throws out of the operation). */
  datatype Resolution = Resolution(memo: ConnectionData, result: AdapterResult<ConnectionData>, queried: bool)

  function ResolveConnection(memo: ConnectionData, adtHostUrl: string, instances: Option<seq<AdtInstance>>, response: ConnectionsResponse): (r: Resolution)
    ensures IsResolved(memo) ==> r == Resolution(memo, AdapterResult(Some(memo), []), false)
    ensures !IsResolved(memo) ==> r.queried
    ensures r.result.result.Some? ==> r.result.result.value == r.memo
    ensures |r.result.errors| <= 1
  {
    if IsResolved(memo) then Resolution(memo, AdapterResult(Some(memo), []), false)
    else match instances
      case None => Resolution(memo, EscapedResult(), true)
      case Some(list) =>
        var (next, errors) := FetchConnection(memo, FindInstance(list, adtHostUrl), response);
        Resolution(next, AdapterResult(Some(next), errors), true)
  }

  /** Once resolved, later calls answer from the memo without any request,
      whatever the endpoints would now say. */
  lemma ResolutionIsMemoised(memo: ConnectionData, host: string,
                             instances1: Option<seq<AdtInstance>>, response1: ConnectionsResponse,
                             instances2: Option<seq<AdtInstance>>, response2: ConnectionsResponse)
    requires IsResolved(ResolveConnection(memo, host, instances1, response1).memo)
    ensures var first := ResolveConnection(memo, host, instances1, response1);
      var second := ResolveConnection(first.memo, host, instances2, response2);
      !second.queried && second.memo == first.memo && second.result == AdapterResult(Some(first.memo), [])
  {
  }

  /** A lookup without error found the instance by host name and took the
      first connection's values. */
  lemma SuccessfulLookup(memo: ConnectionData, host: string, instances: seq<AdtInstance>, response: ConnectionsResponse)
    requires !IsResolved(memo)
    requires ResolveConnection(memo, host, Some(instances), response).result.errors == []
    ensures var r := ResolveConnection(memo, host, Some(instances), response);
      var inst := FindInstance(instances, host);
      inst.Some? && inst.value.hostName == host
      && response.Connections? && |response.value| > 0 && response.value[0].Some?
      && var props := response.value[0].value;
      props.adxDatabaseName.Some?
      && r.memo == ConnectionData(props.adxEndpointUri, props.adxDatabaseName,
                                  Some(TableName(props.adxDatabaseName.value, inst.value.location)))
  {
  }

  /** A listed host whose first connection names a database resolves
      without error to that connection's values, and the memo is then
      resolved when the endpoint and the database name are truthy. */
  lemma ListedConnectionResolves(memo: ConnectionData, host: string, instances: seq<AdtInstance>, response: ConnectionsResponse, k: nat)
    requires !IsResolved(memo)
    requires k < |instances| && instances[k].hostName == host
    requires response.Connections? && |response.value| > 0 && response.value[0].Some?
    requires response.value[0].value.adxDatabaseName.Some?
    ensures var r := ResolveConnection(memo, host, Some(instances), response);
      var props := response.value[0].value;
      && FindInstance(instances, host).Some?
      && r.memo == ConnectionData(props.adxEndpointUri, props.adxDatabaseName,
                                  Some(TableName(props.adxDatabaseName.value, FindInstance(instances, host).value.location)))
      && r.result == AdapterResult(Some(r.memo), [])
      && (TruthyText(props.adxEndpointUri) && TruthyText(props.adxDatabaseName) ==> IsResolved(r.memo))
  {
    assert FindInstance(instances, host).Some?;
  }

  /** A failed lookup records one non-catastrophic error and changes no
      field, except when only the database name is missing. */
  lemma FailedLookupKeepsMemo(memo: ConnectionData, host: string, instances: seq<AdtInstance>, response: ConnectionsResponse)
    requires !IsResolved(memo)
    requires ResolveConnection(memo, host, Some(instances), response).result.errors != []
    ensures var r := ResolveConnection(memo, host, Some(instances), response);
      r.result.errors == [Pushed(None, false)]
      && (r.memo == memo
          || (r.memo.kustoDatabaseName.None? && r.memo.kustoTableName == memo.kustoTableName))
  {
  }

  /** An instance that is not listed for the host is a failed lookup that
      changes nothing. */
  lemma UnknownHostChangesNothing(memo: ConnectionData, host: string, instances: seq<AdtInstance>, response: ConnectionsResponse)
    requires !IsResolved(memo)
    requires forall i :: 0 <= i < |instances| ==> instances[i].hostName != host
    ensures ResolveConnection(memo, host, Some(instances), response)
         == Resolution(memo, AdapterResult(Some(memo), [Pushed(None, false)]), true)
  {
  }

  // ---------------------------------------------------------------------
  // Finding the container among the caller's storage resources

  datatype AzureResource = AzureResource(id: string, name: string)

  /** The storage listing for one account name: it throws, or yields the
      data of its result (`None` when the result holds none). */
  datatype ResourcesLookup = ResourcesThrow | Resources(data: Option<seq<AzureResource>>)

  /** `AzureAccessPermissionRoleGroups`; `None` is `null`. */
  datatype MissingRoles = MissingRoles(enforced: Option<seq<string>>, interchangeables: Option<seq<seq<string>>>)

  /** The answer when the container is not among the caller's resources. */
  const NotInSubscription := MissingRoles(None, None)

  /** The missing-role computation for a resource and principal. */
  datatype RoleDiff = DiffThrows | Diff(roles: MissingRoles)

  /** `id.split('/storageAccounts/')[1].split('/')[0]`; `None` where the
      id has no storage-account segment and the expression throws. */
  function AccountSegment(id: string): (r: Option<string>)
    ensures r.Some? ==> '/' !in r.value
  {
    match PieceAt(id, "/storageAccounts/", 1)
    case None => None
    case Some(after) =>
      FirstPieceOf(after, '/');
      PieceAt(after, "/", 0)
  }

  predicate IsContainer(r: AzureResource, names: ContainerNames) {
    var segment := AccountSegment(r.id);
    segment.Some? && names.accountName == segment && names.containerName == Some(r.name)
  }

  datatype Search = SearchThrows | NotFound | Found(resource: AzureResource)

  /** `resources.find(...)` with a predicate that throws on a resource id
      without a storage-account segment. */
  function FindContainer(resources: seq<AzureResource>, names: ContainerNames): (r: Search)
    ensures r.Found? ==> r.resource in resources && IsContainer(r.resource, names)
    decreases |resources|
  {
    if |resources| == 0 then NotFound
    else if AccountSegment(resources[0].id).None? then SearchThrows
    else if IsContainer(resources[0], names) then Found(resources[0])
    else FindContainer(resources[1..], names)
  }

  /** Every resource before index `k` has an account segment and is not the container. */
  predicate PassedOver(resources: seq<AzureResource>, names: ContainerNames, k: int)
    requires 0 <= k <= |resources|
  {
    forall j :: 0 <= j < k ==> AccountSegment(resources[j].id).Some? && !IsContainer(resources[j], names)
  }

  /** The search finds the first matching resource, fails on the first id
      without an account segment ahead of it, and otherwise finds nothing. */
  lemma {:induction false} FindContainerSpec(resources: seq<AzureResource>, names: ContainerNames)
    ensures FindContainer(resources, names).Found? <==>
      exists k :: 0 <= k < |resources| && PassedOver(resources, names, k) && IsContainer(resources[k], names)
    ensures FindContainer(resources, names).NotFound? <==> PassedOver(resources, names, |resources|)
    ensures FindContainer(resources, names).Found? ==>
      exists k :: 0 <= k < |resources| && PassedOver(resources, names, k)
        && FindContainer(resources, names).resource == resources[k] && IsContainer(resources[k], names)
    decreases |resources|
  {
    if |resources| > 0 {
      var tail := resources[1..];
      FindContainerSpec(tail, names);
      var r := FindContainer(resources, names);
      if AccountSegment(resources[0].id).Some? && !IsContainer(resources[0], names) {
        assert r == FindContainer(tail, names);
        assert PassedOver(resources, names, |resources|) <==> PassedOver(tail, names, |tail|) by {
          if PassedOver(tail, names, |tail|) {
            forall j | 0 <= j < |resources|
              ensures AccountSegment(resources[j].id).Some? && !IsContainer(resources[j], names)
            {
              if j > 0 { assert resources[j] == tail[j - 1]; }
            }
          }
          if PassedOver(resources, names, |resources|) {
            forall j | 0 <= j < |tail|
              ensures AccountSegment(tail[j].id).Some? && !IsContainer(tail[j], names)
            {
              assert tail[j] == resources[j + 1];
            }
          }
        }
        if r.Found? {
          var k :| 0 <= k < |tail| && PassedOver(tail, names, k)
            && r.resource == tail[k] && IsContainer(tail[k], names);
          assert resources[k + 1] == tail[k];
          assert PassedOver(resources, names, k + 1) by {
            forall j | 0 <= j < k + 1
              ensures AccountSegment(resources[j].id).Some? && !IsContainer(resources[j], names)
            {
              if j > 0 { assert resources[j] == tail[j - 1]; }
            }
          }
        }
        if exists k :: 0 <= k < |resources| && PassedOver(resources, names, k) && IsContainer(resources[k], names) {
          var k :| 0 <= k < |resources| && PassedOver(resources, names, k) && IsContainer(resources[k], names);
          assert k > 0;
          assert tail[k - 1] == resources[k];
          assert PassedOver(tail, names, k - 1) by {
            forall j | 0 <= j < k - 1
              ensures AccountSegment(tail[j].id).Some? && !IsContainer(tail[j], names)
            {
              assert tail[j] == resources[j + 1];
            }
          }
        }
      } else if AccountSegment(resources[0].id).None? {
        assert !PassedOver(resources, names, |resources|);
        assert forall k :: 0 < k <= |resources| ==> !PassedOver(resources, names, k);
      } else {
        assert PassedOver(resources, names, 0);
        assert !PassedOver(resources, names, |resources|);
      }
    }
  }

  /** The names the lookup uses: those a URL argument names when it parses,
      none when it does not, and the adapter's own otherwise. The first
      component is what the adapter keeps in its fields afterwards, the
      second what the search compares with. */
  function LookupNames(fields: ContainerNames, containerUrl: Option<string>, parse: UrlParser)
    : (r: (ContainerNames, ContainerNames))
    ensures !TruthyText(containerUrl) ==> r == (fields, fields)
    ensures TruthyText(containerUrl) && parse(containerUrl.value).Some? ==>
              r.0 == r.1 == NamesFromUrl(parse(containerUrl.value).value)
    ensures TruthyText(containerUrl) && parse(containerUrl.value).None? ==> r == (fields, ContainerNames(None, None))
  {
    if TruthyText(containerUrl) then
      match parse(containerUrl.value)
      case Some(u) => (NamesFromUrl(u), NamesFromUrl(u))
      case None => (fields, ContainerNames(None, None))
    else (fields, fields)
  }

  /** The same, as the source writes it: with a URL argument that parses, the
      names are stored in the fields but the locals the search compares with
      are never assigned. */
  function LookupNamesAsWritten(fields: ContainerNames, containerUrl: Option<string>, parse: UrlParser)
    : (r: (ContainerNames, ContainerNames))
    ensures r.0 == LookupNames(fields, containerUrl, parse).0
    ensures !TruthyText(containerUrl) ==> r == (fields, fields)
    ensures TruthyText(containerUrl) ==> r.1 == ContainerNames(None, None)
  {
    if TruthyText(containerUrl) then
      match parse(containerUrl.value)
      case Some(u) => (NamesFromUrl(u), ContainerNames(None, None))
      case None => (fields, ContainerNames(None, None))
    else (fields, fields)
  }

  /** No resource is the container of unassigned names. */
  lemma {:induction false} NothingMatchesNoNames(resources: seq<AzureResource>)
    ensures !FindContainer(resources, ContainerNames(None, None)).Found?
    decreases |resources|
  {
    if |resources| > 0 {
      NothingMatchesNoNames(resources[1..]);
    }
  }

  /** As written, a container URL argument can never lead to the container:
      even when the listing holds exactly the container the URL names, the
      search reports it as outside the caller's subscriptions. */
  lemma AsWrittenUrlArgumentNeverFinds(fields: ContainerNames, url: string, parse: UrlParser, resources: seq<AzureResource>)
    requires url != "" && parse(url).Some?
    ensures LookupNamesAsWritten(fields, Some(url), parse).0 == NamesFromUrl(parse(url).value)
    ensures !FindContainer(resources, LookupNamesAsWritten(fields, Some(url), parse).1).Found?
  {
    NothingMatchesNoNames(resources);
  }

  /** With the names assigned, the container a URL argument names is found
      when the listing holds it and no malformed id comes first. */
  lemma UrlArgumentFindsContainer(fields: ContainerNames, url: string, parse: UrlParser, resources: seq<AzureResource>, k: nat)
    requires url != "" && parse(url).Some?
    requires k < |resources|
    requires PassedOver(resources, NamesFromUrl(parse(url).value), k)
    requires IsContainer(resources[k], NamesFromUrl(parse(url).value))
    ensures var (kept, searched) := LookupNames(fields, Some(url), parse);
      kept == searched == NamesFromUrl(parse(url).value)
      && FindContainer(resources, searched) == Found(resources[k])
  {
    FindFirstContainer(resources, NamesFromUrl(parse(url).value), k);
  }

  /** The search returns the first container, when every resource ahead of it is well formed. */
  lemma {:induction false} FindFirstContainer(resources: seq<AzureResource>, names: ContainerNames, k: nat)
    requires k < |resources|
    requires PassedOver(resources, names, k)
    requires IsContainer(resources[k], names)
    ensures FindContainer(resources, names) == Found(resources[k])
    decreases k
  {
    if k > 0 {
      assert AccountSegment(resources[0].id).Some? && !IsContainer(resources[0], names);
      assert PassedOver(resources[1..], names, k - 1) by {
        forall j | 0 <= j < k - 1
          ensures AccountSegment(resources[1..][j].id).Some? && !IsContainer(resources[1..][j], names)
        {
          assert resources[1..][j] == resources[j + 1];
        }
      }
      FindFirstContainer(resources[1..], names, k - 1);
    }
  }

  /** The result of `getMissingStorageContainerAccessRoles`, the names the
      adapter keeps and its container resource id afterwards. */
  datatype ContainerLookup = ContainerLookup(names: ContainerNames, containerResourceId: Option<string>, result: AdapterResult<MissingRoles>)

  /** The names of `LookupNamesAsWritten` when `asWritten`, otherwise those
      of `LookupNames`. */
  function NamesFor(fields: ContainerNames, containerUrl: Option<string>, parse: UrlParser, asWritten: bool)
    : (r: (ContainerNames, ContainerNames))
    ensures r.0 == LookupNames(fields, containerUrl, parse).0
    ensures !TruthyText(containerUrl) ==> r == (fields, fields)
    ensures TruthyText(containerUrl) && (asWritten || parse(containerUrl.value).None?) ==> r.1 == ContainerNames(None, None)
  {
    if asWritten then LookupNamesAsWritten(fields, containerUrl, parse) else LookupNames(fields, containerUrl, parse)
  }

  /** `getMissingStorageContainerAccessRoles`: the search as the source
      writes it when `asWritten`, or with the names of the URL argument
      otherwise. `listing` answers the storage listing for the account name
      it is queried with; `rolesFor` the missing-role computation for a
      resource id and principal. */
  function LookupContainer(fields: ContainerNames, containerResourceId: Option<string>, principal: Option<string>,
                           containerUrl: Option<string>, parse: UrlParser, asWritten: bool,
                           listing: Option<string> -> ResourcesLookup,
                           rolesFor: (string, Option<string>) -> RoleDiff): (r: ContainerLookup)
    ensures r.names == LookupNames(fields, containerUrl, parse).0
    ensures r.containerResourceId != containerResourceId ==>
      var searched := NamesFor(fields, containerUrl, parse, asWritten).1;
      var l := listing(searched.accountName);
      l.Resources? && l.data.Some? && FindContainer(l.data.value, searched).Found?
      && r.containerResourceId == Some(FindContainer(l.data.value, searched).resource.id)
    ensures var searched := NamesFor(fields, containerUrl, parse, asWritten).1;
      var l := listing(searched.accountName);
      l.Resources? && (l.data.None? || FindContainer(l.data.value, searched).NotFound?) ==>
        r.result == AdapterResult(Some(NotInSubscription), []) && r.containerResourceId == containerResourceId
    ensures var searched := NamesFor(fields, containerUrl, parse, asWritten).1;
      var l := listing(searched.accountName);
      l.Resources? && l.data.Some? && FindContainer(l.data.value, searched).Found? ==>
        var id := FindContainer(l.data.value, searched).resource.id;
        && r.containerResourceId == Some(id)
        && (r.result.result.Some? ==> rolesFor(id, principal) == Diff(r.result.result.value))
        && (rolesFor(id, principal).Diff? ==> r.result == AdapterResult(Some(rolesFor(id, principal).roles), []))
        && (rolesFor(id, principal).DiffThrows? ==> r.result == FetchFailedResult())
    ensures var searched := NamesFor(fields, containerUrl, parse, asWritten).1;
      var l := listing(searched.accountName);
      (l.ResourcesThrow? || (l.data.Some? && FindContainer(l.data.value, searched).SearchThrows?)) ==>
        r.result == FetchFailedResult() && r.containerResourceId == containerResourceId
    ensures r.result.HasNoData() ==> r.result == FetchFailedResult()
    ensures !r.result.HasNoData() ==> r.result.errors == []
  {
    var (kept, searched) := NamesFor(fields, containerUrl, parse, asWritten);
    match listing(searched.accountName)
    case ResourcesThrow => ContainerLookup(kept, containerResourceId, FetchFailedResult())
    case Resources(None) => ContainerLookup(kept, containerResourceId, AdapterResult(Some(NotInSubscription), []))
    case Resources(Some(resources)) =>
      match FindContainer(resources, searched)
      case SearchThrows => ContainerLookup(kept, containerResourceId, FetchFailedResult())
      case NotFound => ContainerLookup(kept, containerResourceId, AdapterResult(Some(NotInSubscription), []))
      case Found(res) =>
        match rolesFor(res.id, principal)
        case DiffThrows => ContainerLookup(kept, Some(res.id), FetchFailedResult())
        case Diff(missing) => ContainerLookup(kept, Some(res.id), AdapterResult(Some(missing), []))
  }

  /** As written, a container URL argument never reaches the role check:
      the adapter remembers the URL's names, keeps its container id, and
      answers the "not in subscription" sentinel or a fetch failure. */
  lemma LookupWithUrlArgumentAsWritten(fields: ContainerNames, containerResourceId: Option<string>,
                                       principal: Option<string>, url: string, parse: UrlParser,
                                       listing: Option<string> -> ResourcesLookup,
                                       rolesFor: (string, Option<string>) -> RoleDiff)
    requires url != "" && parse(url).Some?
    ensures var r := LookupContainer(fields, containerResourceId, principal, Some(url), parse, true, listing, rolesFor);
      && r.names == NamesFromUrl(parse(url).value)
      && r.containerResourceId == containerResourceId
      && (r.result == AdapterResult(Some(NotInSubscription), []) || r.result == FetchFailedResult())
  {
    var l := listing(None);
    if l.Resources? && l.data.Some? {
      NothingMatchesNoNames(l.data.value);
    }
  }

  // ---------------------------------------------------------------------
  // Repairing role assignments on the container

  /** The built-in Azure role definitions the repair prefers, by id
      (`AzureAccessPermissionRoles`). */
  const StorageBlobDataContributor: string := "ba92f5b4-2d11-453d-a403-e96b0029c9fe"
  const Reader: string := "acdd72a7-3385-48ef-bd42-f606fba81ae7"

  /** The role assigned for one interchangeable group: Storage Blob Data
      Contributor when the group offers it, else Reader, else the group's
      first role; none (`undefined`) for an empty group. */
  function ChooseInterchangeableRole(group: seq<string>): (r: Option<string>)
    ensures r.Some? <==> |group| > 0
    ensures r.Some? ==> r.value in group
    ensures StorageBlobDataContributor in group ==> r == Some(StorageBlobDataContributor)
    ensures StorageBlobDataContributor !in group && Reader in group ==> r == Some(Reader)
    ensures StorageBlobDataContributor !in group && Reader !in group && |group| > 0 ==> r == Some(group[0])
  {
    if StorageBlobDataContributor in group then Some(StorageBlobDataContributor)
    else if Reader in group then Some(Reader)
    else if |group| > 0 then Some(group[0])
    else None
  }

  /** A role assignment the service created. */
  datatype RoleAssignment = RoleAssignment(id: string, roleDefinitionId: string)

  /** One `assignRole` call: its promise rejects, or resolves to a result
      that may hold no data (the call failed inside its own sandbox). */
  datatype AssignOutcome = AssignRejects | AssignResolves(data: Option<RoleAssignment>)

  /** `assignRole(roleDefinitionId, scope, principalId)`. */
  type Assigner = (string, Option<string>, Option<string>) -> AssignOutcome

  /** The role ids assigned for the interchangeable groups, in group order,
      empty groups contributing none. */
  function ChosenRoles(groups: seq<seq<string>>): (r: seq<string>)
    ensures |r| <= |groups|
    decreases |groups|
  {
    if |groups| == 0 then []
    else
      var choice := ChooseInterchangeableRole(groups[|groups| - 1]);
      ChosenRoles(groups[..|groups| - 1]) + (if choice.Some? then [choice.value] else [])
  }

  /** One result per interchangeable group, `None` (`undefined`) for an empty group. */
  function GroupOutcome(group: seq<string>, scope: Option<string>, principal: Option<string>, assign: Assigner)
    : (r: Option<AssignOutcome>)
    ensures r.None? <==> |group| == 0
    ensures StorageBlobDataContributor in group ==> r == Some(assign(StorageBlobDataContributor, scope, principal))
    ensures r.Some? ==> exists role :: role in group && r == Some(assign(role, scope, principal))
  {
    match ChooseInterchangeableRole(group)
    case None => None
    case Some(role) => Some(assign(role, scope, principal))
  }

  /** The role assignments held by the resolved results, in order. */
  function Kept(results: seq<Option<AssignOutcome>>): (r: seq<RoleAssignment>)
    ensures |r| <= |results|
    decreases |results|
  {
    if |results| == 0 then []
    else
      var last := results[|results| - 1];
      Kept(results[..|results| - 1])
        + (if last.Some? && last.value.AssignResolves? && last.value.data.Some? then [last.value.data.value] else [])
  }

  /** An assignment is kept exactly when some result resolved with it. */
  lemma {:induction false} KeptSpec(results: seq<Option<AssignOutcome>>, x: RoleAssignment)
    ensures x in Kept(results) <==> exists i :: 0 <= i < |results| && results[i] == Some(AssignResolves(Some(x)))
    decreases |results|
  {
    if |results| > 0 {
      var init := results[..|results| - 1];
      KeptSpec(init, x);
      if exists i :: 0 <= i < |results| && results[i] == Some(AssignResolves(Some(x))) {
        var i :| 0 <= i < |results| && results[i] == Some(AssignResolves(Some(x)));
        if i < |init| {
          assert init[i] == results[i];
        }
      }
      if exists i :: 0 <= i < |init| && init[i] == Some(AssignResolves(Some(x))) {
        var i :| 0 <= i < |init| && init[i] == Some(AssignResolves(Some(x)));
        assert results[i] == init[i];
      }
    }
  }

  /** The kept assignments follow the order of the results. */
  lemma {:induction false} KeptAppend(a: seq<Option<AssignOutcome>>, b: seq<Option<AssignOutcome>>)
    ensures Kept(a + b) == Kept(a) + Kept(b)
    decreases |b|
  {
    if |b| == 0 {
      assert a + b == a;
    } else {
      var init := b[..|b| - 1];
      assert (a + b)[..|a + b| - 1] == a + init;
      assert (a + b)[|a + b| - 1] == b[|b| - 1];
      KeptAppend(a, init);
    }
  }

  predicate AnyRejects(results: seq<Option<AssignOutcome>>) {
    exists i :: 0 <= i < |results| && results[i] == Some(AssignRejects)
  }

  predicate AnyMissing(results: seq<Option<AssignOutcome>>) {
    exists i :: 0 <= i < |results| && results[i].None?
  }

  function EnforcedOutcomes(enforced: seq<string>, scope: Option<string>, principal: Option<string>, assign: Assigner): (r: seq<Option<AssignOutcome>>)
    ensures |r| == |enforced|
    ensures forall i :: 0 <= i < |enforced| ==> r[i] == Some(assign(enforced[i], scope, principal))
  {
    seq(|enforced|, i requires 0 <= i < |enforced| => Some(assign(enforced[i], scope, principal)))
  }

  function GroupOutcomes(groups: seq<seq<string>>, scope: Option<string>, principal: Option<string>, assign: Assigner): (r: seq<Option<AssignOutcome>>)
    ensures |r| == |groups|
    ensures forall i :: 0 <= i < |groups| ==> r[i] == GroupOutcome(groups[i], scope, principal, assign)
  {
    seq(|groups|, i requires 0 <= i < |groups| => GroupOutcome(groups[i], scope, principal, assign))
  }

  /** The calls `addMissingRolesToStorageContainer` issues, in order, and
      its result. */
  datatype Repair = Repair(calls: seq<string>, result: AdapterResult<seq<RoleAssignment>>)

  function RepairRoles(missing: MissingRoles, scope: Option<string>, principal: Option<string>, assign: Assigner): (r: Repair)
    ensures missing.enforced.None? ==> r == Repair([], FetchFailedResult())
    ensures missing.enforced.Some? ==> missing.enforced.value <= r.calls
    ensures r.result == FetchFailedResult() || (r.result.result.Some? && r.result.errors == [])
  {
    match missing.enforced
    case None => Repair([], FetchFailedResult())
    case Some(enforced) =>
      var enforcedResults := EnforcedOutcomes(enforced, scope, principal, assign);
      if AnyRejects(enforcedResults) then Repair(enforced, FetchFailedResult())
      else match missing.interchangeables
        case None => Repair(enforced, FetchFailedResult())
        case Some(groups) =>
          var calls := enforced + ChosenRoles(groups);
          var groupResults := GroupOutcomes(groups, scope, principal, assign);
          if AnyRejects(groupResults) || AnyMissing(groupResults) then Repair(calls, FetchFailedResult())
          else Repair(calls, AdapterResult(Some(Kept(enforcedResults) + Kept(groupResults)), []))
  }

  /** Every enforced role is requested once, then one role per non-empty
      group; a successful repair had a role for every group. */
  lemma {:induction false} ChosenRolesAligned(groups: seq<seq<string>>)
    requires forall i :: 0 <= i < |groups| ==> |groups[i]| > 0
    ensures |ChosenRoles(groups)| == |groups|
    ensures forall i :: 0 <= i < |groups| ==> ChosenRoles(groups)[i] == ChooseInterchangeableRole(groups[i]).value
    decreases |groups|
  {
    if |groups| > 0 {
      var init := groups[..|groups| - 1];
      ChosenRolesAligned(init);
    }
  }

  lemma RepairCalls(missing: MissingRoles, scope: Option<string>, principal: Option<string>, assign: Assigner)
    requires RepairRoles(missing, scope, principal, assign).result.result.Some?
    ensures missing.enforced.Some? && missing.interchangeables.Some?
    ensures var enforced := missing.enforced.value;
      var groups := missing.interchangeables.value;
      var calls := RepairRoles(missing, scope, principal, assign).calls;
      (forall i :: 0 <= i < |groups| ==> |groups[i]| > 0)
      && |calls| == |enforced| + |groups|
      && calls[..|enforced|] == enforced
      && (forall i :: 0 <= i < |groups| ==>
            calls[|enforced| + i] in groups[i]
            && (StorageBlobDataContributor in groups[i] ==> calls[|enforced| + i] == StorageBlobDataContributor))
    ensures var enforced := missing.enforced.value;
      var groups := missing.interchangeables.value;
      RepairRoles(missing, scope, principal, assign).result
        == AdapterResult(Some(Kept(EnforcedOutcomes(enforced, scope, principal, assign) + GroupOutcomes(groups, scope, principal, assign))), [])
  {
    var enforced := missing.enforced.value;
    var groups := missing.interchangeables.value;
    var groupResults := GroupOutcomes(groups, scope, principal, assign);
    forall i | 0 <= i < |groups|
      ensures |groups[i]| > 0
    {
      assert groupResults[i].Some?;
    }
    ChosenRolesAligned(groups);
    KeptAppend(EnforcedOutcomes(enforced, scope, principal, assign), groupResults);
  }

  /** A rejected call, a missing input array or an empty group fails the
      whole repair: the result carries no assignments, only a fetch error. */
  lemma RepairFailure(missing: MissingRoles, scope: Option<string>, principal: Option<string>, assign: Assigner)
    requires missing.enforced.None? || missing.interchangeables.None?
      || (exists i :: 0 <= i < |missing.enforced.value| && assign(missing.enforced.value[i], scope, principal).AssignRejects?)
      || (exists i :: 0 <= i < |missing.interchangeables.value| && |missing.interchangeables.value[i]| == 0)
    ensures RepairRoles(missing, scope, principal, assign).result == FetchFailedResult()
  {
    if missing.enforced.Some? && missing.interchangeables.Some? {
      var enforcedResults := EnforcedOutcomes(missing.enforced.value, scope, principal, assign);
      var groupResults := GroupOutcomes(missing.interchangeables.value, scope, principal, assign);
      if i :| 0 <= i < |missing.enforced.value| && assign(missing.enforced.value[i], scope, principal).AssignRejects? {
        assert enforcedResults[i] == Some(AssignRejects);
      } else {
        var i :| 0 <= i < |missing.interchangeables.value| && |missing.interchangeables.value[i]| == 0;
        assert groupResults[i].None?;
      }
    }
  }

  /** A call whose own result holds no data is dropped, and the others are
      kept in order: three enforced roles whose middle call fails give the
      first and last assignments, with no error in the outer result. */
  lemma PartialFailure(a: string, b: string, c: string, scope: Option<string>, principal: Option<string>, assign: Assigner,
                       ra: RoleAssignment, rc: RoleAssignment)
    requires assign(a, scope, principal) == AssignResolves(Some(ra))
    requires assign(b, scope, principal) == AssignResolves(None)
    requires assign(c, scope, principal) == AssignResolves(Some(rc))
    ensures RepairRoles(MissingRoles(Some([a, b, c]), Some([])), scope, principal, assign)
         == Repair([a, b, c], AdapterResult(Some([ra, rc]), []))
  {
    var results := EnforcedOutcomes([a, b, c], scope, principal, assign);
    assert results[..2][..1] == results[..1];
    assert results[..3][..2] == results[..2];
    assert results[..3] == results;
    assert !AnyRejects(results);
    assert Kept(results[..1]) == [ra];
    assert Kept(results[..2]) == [ra];
    assert Kept(results) == [ra, rc];
    var none := GroupOutcomes([], scope, principal, assign);
    assert none == [];
    assert !AnyRejects(none) && !AnyMissing(none) && Kept(none) == [];
    assert ChosenRoles([]) == [];
    assert [ra, rc] + Kept(none) == [ra, rc];
  }

  /** The adapter's state `ADT3DSceneAdapter` reads and writes in the
      modelled operations. */
  class ADT3DSceneAdapter {
    const adtHostUrl: string
    var tenantId: Option<string>
    var uniqueObjectId: Option<string>
    var storageAccountHostName: Option<string>
    var storageAccountName: Option<string>
    var containerName: Option<string>
    var clusterUrl: Option<string>
    var databaseName: Option<string>
    var tableName: Option<string>
    var containerResourceId: Option<string>

    function Memo(): ConnectionData
      reads this
    {
      ConnectionData(clusterUrl, databaseName, tableName)
    }

    function Names(): ContainerNames
      reads this
    {
      ContainerNames(storageAccountName, containerName)
    }

    /** A truthy container URL that parses binds the adapter to its storage
        host, account and container; any other URL leaves them unset. */
    constructor(adtHostUrl: string, blobContainerUrl: Option<string>, tenantId: Option<string>,
                uniqueObjectId: Option<string>, parse: UrlParser)
      ensures this.adtHostUrl == adtHostUrl
      ensures this.tenantId == tenantId && this.uniqueObjectId == uniqueObjectId
      ensures TruthyText(blobContainerUrl) && parse(blobContainerUrl.value).Some? ==>
        storageAccountHostName == Some(parse(blobContainerUrl.value).value.hostname)
        && Names() == NamesFromUrl(parse(blobContainerUrl.value).value)
      ensures !(TruthyText(blobContainerUrl) && parse(blobContainerUrl.value).Some?) ==>
        storageAccountHostName == None && Names() == ContainerNames(None, None)
      ensures Memo() == ConnectionData(None, None, None) && containerResourceId == None
    {
      this.adtHostUrl := adtHostUrl;
      this.tenantId := tenantId;
      this.uniqueObjectId := uniqueObjectId;
      clusterUrl, databaseName, tableName := None, None, None;
      containerResourceId := None;
      storageAccountHostName, storageAccountName, containerName := None, None, None;
      if TruthyText(blobContainerUrl) {
        var parsed := parse(blobContainerUrl.value);
        if parsed.Some? {
          var names := NamesFromUrl(parsed.value);
          storageAccountHostName := Some(parsed.value.hostname);
          storageAccountName := names.accountName;
          containerName := names.containerName;
        }
      }
    }

    /** `getConnectionInformation`; `instances` and `response` are the answers
        of the two management calls, which are only made when the memo is
        not resolved. */
    method GetConnectionInformation(instances: Option<seq<AdtInstance>>, response: ConnectionsResponse)
      returns (result: AdapterResult<ConnectionData>, queried: bool)
      modifies this
      ensures var r := ResolveConnection(old(Memo()), adtHostUrl, instances, response);
        Memo() == r.memo && result == r.result && queried == r.queried
      ensures Names() == old(Names()) && containerResourceId == old(containerResourceId)
      ensures storageAccountHostName == old(storageAccountHostName)
      ensures tenantId == old(tenantId) && uniqueObjectId == old(uniqueObjectId)
    {
      var r := ResolveConnection(Memo(), adtHostUrl, instances, response);
      clusterUrl, databaseName, tableName := r.memo.kustoClusterUrl, r.memo.kustoDatabaseName, r.memo.kustoTableName;
      result, queried := r.result, r.queried;
    }

    /** `getMissingStorageContainerAccessRoles`, as written: with a URL
        argument the search uses names that were never assigned (see
        `LookupNamesAsWritten` and `LookupWithUrlArgumentAsWritten`). */
    method GetMissingStorageContainerAccessRoles(containerUrl: Option<string>, parse: UrlParser,
                                                 listing: Option<string> -> ResourcesLookup,
                                                 rolesFor: (string, Option<string>) -> RoleDiff)
      returns (result: AdapterResult<MissingRoles>)
      modifies this
      ensures var r := LookupContainer(old(Names()), old(containerResourceId), uniqueObjectId, containerUrl, parse, true,
                                       listing, rolesFor);
        Names() == r.names && containerResourceId == r.containerResourceId && result == r.result
      ensures Memo() == old(Memo()) && storageAccountHostName == old(storageAccountHostName)
      ensures tenantId == old(tenantId) && uniqueObjectId == old(uniqueObjectId)
    {
      var r := LookupContainer(Names(), containerResourceId, uniqueObjectId, containerUrl, parse, true, listing, rolesFor);
      storageAccountName, containerName := r.names.accountName, r.names.containerName;
      containerResourceId := r.containerResourceId;
      result := r.result;
    }

    /** `addMissingRolesToStorageContainer`: assigns the missing roles on the
        container resource id found by the lookup, for the adapter's principal. */
    method AddMissingRolesToStorageContainer(missing: MissingRoles, assign: Assigner)
      returns (calls: seq<string>, result: AdapterResult<seq<RoleAssignment>>)
      ensures Repair(calls, result) == RepairRoles(missing, containerResourceId, uniqueObjectId, assign)
    {
      if missing.enforced.None? {
        return [], FetchFailedResult();
      }
      var enforced := missing.enforced.value;
      var scope, principal := containerResourceId, uniqueObjectId;
      var enforcedResults;
      calls, enforcedResults := AssignEach(enforced, scope, principal, assign);
      if AnyRejects(enforcedResults) || missing.interchangeables.None? {
        return calls, FetchFailedResult();
      }
      var groups := missing.interchangeables.value;
      var chosen, groupResults := AssignOnePerGroup(groups, scope, principal, assign);
      calls := calls + chosen;
      if AnyRejects(groupResults) {
        return calls, FetchFailedResult();
      }
      var fromEnforced := CollectAssignments(enforcedResults);
      var fromGroups := CollectAssignments(groupResults);
      if fromGroups.None? {
        return calls, FetchFailedResult();
      }
      result := AdapterResult(Some(fromEnforced.value + fromGroups.value), []);
    }
  }

  /** The `map` over the enforced roles: one call per role, in order. */
  method AssignEach(roles: seq<string>, scope: Option<string>, principal: Option<string>, assign: Assigner)
    returns (calls: seq<string>, results: seq<Option<AssignOutcome>>)
    ensures calls == roles
    ensures results == EnforcedOutcomes(roles, scope, principal, assign)
  {
    calls, results := [], [];
    var i := 0;
    while i < |roles|
      invariant 0 <= i <= |roles|
      invariant calls == roles[..i]
      invariant results == EnforcedOutcomes(roles, scope, principal, assign)[..i]
    {
      results := results + [Some(assign(roles[i], scope, principal))];
      calls := calls + [roles[i]];
      i := i + 1;
    }
  }

  /** The `map` over the interchangeable groups: at most one call per group. */
  method AssignOnePerGroup(groups: seq<seq<string>>, scope: Option<string>, principal: Option<string>, assign: Assigner)
    returns (calls: seq<string>, results: seq<Option<AssignOutcome>>)
    ensures calls == ChosenRoles(groups)
    ensures results == GroupOutcomes(groups, scope, principal, assign)
  {
    calls, results := [], [];
    var j := 0;
    while j < |groups|
      invariant 0 <= j <= |groups|
      invariant calls == ChosenRoles(groups[..j])
      invariant results == GroupOutcomes(groups, scope, principal, assign)[..j]
    {
      assert groups[..j + 1][..j] == groups[..j];
      ghost var outcomes := GroupOutcomes(groups, scope, principal, assign);
      assert outcomes[..j + 1] == outcomes[..j] + [GroupOutcome(groups[j], scope, principal, assign)];
      var choice := ChooseInterchangeableRole(groups[j]);
      if choice.Some? {
        calls := calls + [choice.value];
        results := results + [Some(assign(choice.value, scope, principal))];
      } else {
        results := results + [None];
      }
      j := j + 1;
    }
    assert groups[..|groups|] == groups;
  }

  /** The `forEach` that keeps the data of every result holding some, and
      throws (`None`) on an `undefined` result. */
  method CollectAssignments(results: seq<Option<AssignOutcome>>) returns (kept: Option<seq<RoleAssignment>>)
    ensures kept == if AnyMissing(results) then None else Some(Kept(results))
  {
    var assignments: seq<RoleAssignment> := [];
    var k := 0;
    while k < |results|
      invariant 0 <= k <= |results|
      invariant assignments == Kept(results[..k])
      invariant forall n :: 0 <= n < k ==> results[n].Some?
    {
      assert results[..k + 1][..k] == results[..k];
      var outcome := results[k];
      if outcome.None? {
        return None;
      }
      if outcome.value.AssignResolves? && outcome.value.data.Some? {
        assignments := assignments + [outcome.value.data.value];
      }
      k := k + 1;
    }
    assert results[..|results|] == results;
    kept := Some(assignments);
  }
}
