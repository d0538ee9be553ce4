/** `AzureManagementAdapter`: the Digital Twins instances of the caller's
    tenant on which the caller holds a data-plane role. */
module ManagementAdapter {
  import opened Wrappers
  import opened JsValues
  import opened Strings
  import opened AdapterData

  /** The role definitions that grant data access to an instance
      (Azure Digital Twins Data Reader and Data Owner). */
  const DataReaderRoleId: string := "d57506d4-4c8d-48b1-8587-93c323f6a5a3"
  const DataOwnerRoleId: string := "bcd981a7-7f74-457b-83e1-cceb9e632ffe"

  /** The answer of one management call. */
  datatype Fetch<T> = FetchFailed | Fetched(value: T)

  datatype Subscription = Subscription(subscriptionId: string, tenantId: Option<string>)

  datatype DigitalTwinsInstance = DigitalTwinsInstance(id: string, name: string, hostName: string, location: Option<string>)

  /** A role assignment entry; `None` where it has no role definition id and
      reading it throws. */
  datatype RoleEntry = RoleEntry(roleDefinitionId: Option<string>)

  /** The record returned per accessible instance. */
  datatype InstanceRecord = InstanceRecord(name: string, hostName: string, resourceId: string, location: Option<string>)

  /** Whether the role assignments grant data access: `None` where reading
      an entry throws; no list at all grants nothing. */
  function GrantsDataAccess(entries: Option<seq<RoleEntry>>): (r: Option<bool>)
    ensures entries.None? ==> r == Some(false)
    ensures r.None? <==> entries.Some? && exists i :: 0 <= i < |entries.value| && entries.value[i].roleDefinitionId.None?
    ensures r == Some(true) ==> entries.Some? && exists e :: e in entries.value && e.roleDefinitionId.Some?
                                                               && IsDataRole(e.roleDefinitionId.value)
    ensures entries.Some? && (forall i :: 0 <= i < |entries.value| ==> entries.value[i].roleDefinitionId.Some?) ==>
      (r == Some(true) <==> exists i :: 0 <= i < |entries.value| && IsDataRole(entries.value[i].roleDefinitionId.value))
  {
    match entries
    case None => Some(false)
    case Some(list) =>
      if exists i :: 0 <= i < |list| && list[i].roleDefinitionId.None? then None
      else Some(exists i :: 0 <= i < |list| && IsDataRole(list[i].roleDefinitionId.value))
  }

  /** The role definition id is a path whose last segment names a data role. */
  predicate IsDataRole(roleDefinitionId: string) {
    var id := LastPiece(roleDefinitionId, "/");
    id == DataReaderRoleId || id == DataOwnerRoleId
  }

  /** A role definition path names a data role when it ends in `/` and a data role id. */
  lemma DataRolePath(path: string)
    ensures IsDataRole(path) ==>
      EndsWith(path, LastPiece(path, "/"))
      && (LastPiece(path, "/") == DataReaderRoleId || LastPiece(path, "/") == DataOwnerRoleId)
    ensures forall prefix: string {:trigger prefix + "/" + DataReaderRoleId} ::
      IsDataRole(prefix + "/" + DataReaderRoleId)
    ensures forall prefix: string {:trigger prefix + "/" + DataOwnerRoleId} ::
      IsDataRole(prefix + "/" + DataOwnerRoleId)
  {
    LastPieceOf(path, '/');
    forall prefix: string
      ensures IsDataRole(prefix + "/" + DataReaderRoleId)
    {
      LastPieceAfterSlash(prefix, DataReaderRoleId);
    }
    forall prefix: string
      ensures IsDataRole(prefix + "/" + DataOwnerRoleId)
    {
      LastPieceAfterSlash(prefix, DataOwnerRoleId);
    }
  }

  lemma LastPieceAfterSlash(prefix: string, id: string)
    requires '/' !in id
    ensures LastPiece(prefix + "/" + id, "/") == id
  {
    assert prefix + "/" + id == prefix + ['/'] + id;
    LastPieceAfterSeparator(prefix, '/', id);
    SplitWithoutSeparator(id, '/');
  }

  function Record(instance: DigitalTwinsInstance): InstanceRecord {
    InstanceRecord(instance.name, instance.hostName, instance.id, instance.location)
  }

  /** The ids of the subscriptions whose tenant equals the adapter's (two
      missing tenants are equal), in listing order. */
  function SubscriptionsInTenant(subscriptions: seq<Subscription>, tenantId: Option<string>): (r: seq<string>)
    ensures |r| <= |subscriptions|
    decreases |subscriptions|
  {
    if |subscriptions| == 0 then []
    else
      var s := subscriptions[0];
      (if s.tenantId == tenantId then [s.subscriptionId] else []) + SubscriptionsInTenant(subscriptions[1..], tenantId)
  }

  lemma {:induction false} SubscriptionsInTenantSpec(subscriptions: seq<Subscription>, tenantId: Option<string>, id: string)
    ensures id in SubscriptionsInTenant(subscriptions, tenantId) <==>
      exists i :: 0 <= i < |subscriptions| && subscriptions[i].subscriptionId == id && subscriptions[i].tenantId == tenantId
    decreases |subscriptions|
  {
    if |subscriptions| > 0 {
      SubscriptionsInTenantSpec(subscriptions[1..], tenantId, id);
      if exists i :: 0 <= i < |subscriptions| && subscriptions[i].subscriptionId == id && subscriptions[i].tenantId == tenantId {
        var i :| 0 <= i < |subscriptions| && subscriptions[i].subscriptionId == id && subscriptions[i].tenantId == tenantId;
        if i > 0 { assert subscriptions[1..][i - 1] == subscriptions[i]; }
      }
      if exists i :: 0 <= i < |subscriptions[1..]| && subscriptions[1..][i].subscriptionId == id && subscriptions[1..][i].tenantId == tenantId {
        var i :| 0 <= i < |subscriptions[1..]| && subscriptions[1..][i].subscriptionId == id && subscriptions[1..][i].tenantId == tenantId;
        assert subscriptions[i + 1] == subscriptions[1..][i];
      }
    }
  }

  /** The tenant filter keeps the listing order: it distributes over
      concatenation, and one subscription is kept iff its tenant matches. */
  lemma {:induction false} SubscriptionsInTenantAppend(a: seq<Subscription>, b: seq<Subscription>, tenantId: Option<string>)
    ensures SubscriptionsInTenant(a + b, tenantId) == SubscriptionsInTenant(a, tenantId) + SubscriptionsInTenant(b, tenantId)
    decreases |a|
  {
    if |a| == 0 {
      assert a + b == b;
    } else {
      var head := if a[0].tenantId == tenantId then [a[0].subscriptionId] else [];
      assert (a + b)[0] == a[0];
      assert (a + b)[1..] == a[1..] + b;
      assert SubscriptionsInTenant(a + b, tenantId) == head + SubscriptionsInTenant(a[1..] + b, tenantId);
      assert SubscriptionsInTenant(a, tenantId) == head + SubscriptionsInTenant(a[1..], tenantId);
      SubscriptionsInTenantAppend(a[1..], b, tenantId);
    }
  }

  lemma SubscriptionsInTenantOne(s: Subscription, tenantId: Option<string>)
    ensures SubscriptionsInTenant([s], tenantId) == if s.tenantId == tenantId then [s.subscriptionId] else []
  {
    assert [s][1..] == [];
  }

  /** The role assignments of each instance, for the principal. */
  type RolesOf = (string, Option<string>) -> Fetch<Option<seq<RoleEntry>>>

  predicate AllRolesFetched(instances: seq<DigitalTwinsInstance>, principal: Option<string>, rolesOf: RolesOf) {
    forall i :: 0 <= i < |instances| ==> rolesOf(instances[i].id, principal).Fetched?
  }

  /** The records pushed while walking the instances in order, up to the
      first instance whose role assignments cannot be read. */
  function RecordsUntilThrow(instances: seq<DigitalTwinsInstance>, principal: Option<string>, rolesOf: RolesOf)
    : (r: seq<InstanceRecord>)
    requires AllRolesFetched(instances, principal, rolesOf)
    ensures |r| <= |instances|
    decreases |instances|
  {
    if |instances| == 0 then []
    else
      match GrantsDataAccess(rolesOf(instances[0].id, principal).value)
      case None => []
      case Some(granted) =>
        (if granted then [Record(instances[0])] else []) + RecordsUntilThrow(instances[1..], principal, rolesOf)
  }

  /** The records one subscription contributes: none when a role lookup
      rejects, since the whole `try` is abandoned. */
  function SubscriptionRecords(instances: seq<DigitalTwinsInstance>, principal: Option<string>, rolesOf: RolesOf)
    : (r: seq<InstanceRecord>)
    ensures |r| <= |instances|
    ensures !AllRolesFetched(instances, principal, rolesOf) ==> r == []
  {
    if AllRolesFetched(instances, principal, rolesOf) then RecordsUntilThrow(instances, principal, rolesOf) else []
  }

  /** The records of all subscriptions, in subscription order. */
  function AllRecords(lists: seq<seq<DigitalTwinsInstance>>, principal: Option<string>, rolesOf: RolesOf)
    : (r: seq<InstanceRecord>)
    ensures (forall s :: 0 <= s < |lists| ==> SubscriptionRecords(lists[s], principal, rolesOf) == []) ==> r == []
    decreases |lists|
  {
    if |lists| == 0 then []
    else
      assert forall s :: 0 <= s < |lists| - 1 ==> lists[1..][s] == lists[s + 1];
      SubscriptionRecords(lists[0], principal, rolesOf) + AllRecords(lists[1..], principal, rolesOf)
  }

  /** The records of a concatenation of listings are those of the first
      listings followed by those of the rest: subscription order is kept. */
  lemma {:induction false} AllRecordsAppend(a: seq<seq<DigitalTwinsInstance>>, b: seq<seq<DigitalTwinsInstance>>,
                                            principal: Option<string>, rolesOf: RolesOf)
    ensures AllRecords(a + b, principal, rolesOf) == AllRecords(a, principal, rolesOf) + AllRecords(b, principal, rolesOf)
    decreases |a|
  {
    if |a| == 0 {
      assert a + b == b;
    } else {
      assert (a + b)[0] == a[0];
      assert (a + b)[1..] == a[1..] + b;
      AllRecordsAppend(a[1..], b, principal, rolesOf);
    }
  }

  lemma AllRecordsOne(instances: seq<DigitalTwinsInstance>, principal: Option<string>, rolesOf: RolesOf)
    ensures AllRecords([instances], principal, rolesOf) == SubscriptionRecords(instances, principal, rolesOf)
  {
    assert [instances][1..] == [];
  }

  /** The instances before index `k` have readable role assignments. */
  predicate ReadableBefore(instances: seq<DigitalTwinsInstance>, principal: Option<string>, rolesOf: RolesOf, k: int)
    requires AllRolesFetched(instances, principal, rolesOf)
    requires 0 <= k <= |instances|
  {
    forall j :: 0 <= j < k ==> GrantsDataAccess(rolesOf(instances[j].id, principal).value).Some?
  }

  /** Instance `k` is reached by the walk and contributes the record `r`. */
  predicate ListedAt(instances: seq<DigitalTwinsInstance>, principal: Option<string>, rolesOf: RolesOf,
                     r: InstanceRecord, k: int)
    requires AllRolesFetched(instances, principal, rolesOf)
  {
    && 0 <= k < |instances| && ReadableBefore(instances, principal, rolesOf, k)
    && GrantsDataAccess(rolesOf(instances[k].id, principal).value) == Some(true) && Record(instances[k]) == r
  }

  lemma TailFetched(instances: seq<DigitalTwinsInstance>, principal: Option<string>, rolesOf: RolesOf)
    requires AllRolesFetched(instances, principal, rolesOf) && |instances| > 0
    ensures AllRolesFetched(instances[1..], principal, rolesOf)
  {
    var tail := instances[1..];
    forall i | 0 <= i < |tail| ensures rolesOf(tail[i].id, principal).Fetched? {
      assert tail[i] == instances[i + 1];
    }
  }

  /** Past a readable first instance, instance `k + 1` is listed exactly
      when instance `k` of the rest is. */
  lemma ListedAtTail(instances: seq<DigitalTwinsInstance>, principal: Option<string>, rolesOf: RolesOf,
                     r: InstanceRecord, k: nat)
    requires AllRolesFetched(instances, principal, rolesOf) && |instances| > 0
    requires GrantsDataAccess(rolesOf(instances[0].id, principal).value).Some?
    ensures AllRolesFetched(instances[1..], principal, rolesOf)
    ensures ListedAt(instances, principal, rolesOf, r, k + 1) <==> ListedAt(instances[1..], principal, rolesOf, r, k)
  {
    TailFetched(instances, principal, rolesOf);
    var tail := instances[1..];
    if k < |tail| {
      assert tail[k] == instances[k + 1];
      assert ReadableBefore(tail, principal, rolesOf, k) <==> ReadableBefore(instances, principal, rolesOf, k + 1) by {
        forall j | 0 <= j < k ensures tail[j] == instances[j + 1] {}
      }
    }
  }

  /** Past a prefix whose role lists are all readable, the walk records the
      prefix's instances and then walks the rest: instance order is kept. */
  lemma {:induction false} RecordsUntilThrowAppend(a: seq<DigitalTwinsInstance>, b: seq<DigitalTwinsInstance>,
                                                   principal: Option<string>, rolesOf: RolesOf)
    requires AllRolesFetched(a + b, principal, rolesOf)
    ensures AllRolesFetched(a, principal, rolesOf) && AllRolesFetched(b, principal, rolesOf)
    ensures ReadableBefore(a, principal, rolesOf, |a|) ==>
      RecordsUntilThrow(a + b, principal, rolesOf) == RecordsUntilThrow(a, principal, rolesOf) + RecordsUntilThrow(b, principal, rolesOf)
    decreases |a|
  {
    FetchedParts(a, b, principal, rolesOf);
    if |a| == 0 {
      assert a + b == b;
    } else if ReadableBefore(a, principal, rolesOf, |a|) {
      var head := HeadRecords(a, principal, rolesOf);
      assert (a + b)[0] == a[0];
      assert (a + b)[1..] == a[1..] + b;
      WalkHead(a, principal, rolesOf);
      WalkHead(a + b, principal, rolesOf);
      assert ReadableBefore(a[1..], principal, rolesOf, |a| - 1) by {
        forall j | 0 <= j < |a| - 1 ensures a[1..][j] == a[j + 1] {}
      }
      RecordsUntilThrowAppend(a[1..], b, principal, rolesOf);
    }
  }

  /** What a readable first instance contributes. */
  function HeadRecords(instances: seq<DigitalTwinsInstance>, principal: Option<string>, rolesOf: RolesOf): seq<InstanceRecord>
    requires |instances| > 0 && rolesOf(instances[0].id, principal).Fetched?
  {
    if GrantsDataAccess(rolesOf(instances[0].id, principal).value) == Some(true) then [Record(instances[0])] else []
  }

  /** A walk whose first role list is readable records the first instance's
      contribution and walks on. */
  lemma WalkHead(instances: seq<DigitalTwinsInstance>, principal: Option<string>, rolesOf: RolesOf)
    requires AllRolesFetched(instances, principal, rolesOf) && |instances| > 0
    requires GrantsDataAccess(rolesOf(instances[0].id, principal).value).Some?
    ensures AllRolesFetched(instances[1..], principal, rolesOf)
    ensures RecordsUntilThrow(instances, principal, rolesOf)
         == HeadRecords(instances, principal, rolesOf) + RecordsUntilThrow(instances[1..], principal, rolesOf)
  {
    TailFetched(instances, principal, rolesOf);
  }

  lemma FetchedParts(a: seq<DigitalTwinsInstance>, b: seq<DigitalTwinsInstance>, principal: Option<string>, rolesOf: RolesOf)
    requires AllRolesFetched(a + b, principal, rolesOf)
    ensures AllRolesFetched(a, principal, rolesOf) && AllRolesFetched(b, principal, rolesOf)
  {
    forall i | 0 <= i < |a| ensures rolesOf(a[i].id, principal).Fetched? {
      assert (a + b)[i] == a[i];
    }
    forall i | 0 <= i < |b| ensures rolesOf(b[i].id, principal).Fetched? {
      assert (a + b)[|a| + i] == b[i];
    }
  }

  /** One instance: its record when it grants data access, none otherwise,
      and none when its role list cannot be read. */
  lemma RecordsUntilThrowOne(x: DigitalTwinsInstance, principal: Option<string>, rolesOf: RolesOf)
    requires rolesOf(x.id, principal).Fetched?
    ensures AllRolesFetched([x], principal, rolesOf)
    ensures RecordsUntilThrow([x], principal, rolesOf)
      == if GrantsDataAccess(rolesOf(x.id, principal).value) == Some(true) then [Record(x)] else []
  {
    assert [x][1..] == [];
  }

  /** A record is listed for a subscription exactly when its instance grants
      data access and every instance before it could be checked. */
  lemma {:induction false} RecordsUntilThrowSpec(instances: seq<DigitalTwinsInstance>, principal: Option<string>, rolesOf: RolesOf, r: InstanceRecord)
    requires AllRolesFetched(instances, principal, rolesOf)
    ensures r in RecordsUntilThrow(instances, principal, rolesOf) <==>
      exists k :: ListedAt(instances, principal, rolesOf, r, k)
    decreases |instances|
  {
    if |instances| > 0 {
      var tail := instances[1..];
      TailFetched(instances, principal, rolesOf);
      RecordsUntilThrowSpec(tail, principal, rolesOf, r);
      var g := GrantsDataAccess(rolesOf(instances[0].id, principal).value);
      if g.Some? {
        var head := if g.value then [Record(instances[0])] else [];
        assert RecordsUntilThrow(instances, principal, rolesOf) == head + RecordsUntilThrow(tail, principal, rolesOf);
        assert r in head <==> ListedAt(instances, principal, rolesOf, r, 0);
        forall k: nat
          ensures ListedAt(instances, principal, rolesOf, r, k + 1) <==> ListedAt(tail, principal, rolesOf, r, k)
        {
          ListedAtTail(instances, principal, rolesOf, r, k);
        }
        if exists k :: ListedAt(instances, principal, rolesOf, r, k) {
          var k :| ListedAt(instances, principal, rolesOf, r, k);
          if k > 0 {
            assert ListedAt(tail, principal, rolesOf, r, k - 1);
          }
        }
        if exists k :: ListedAt(tail, principal, rolesOf, r, k) {
          var k :| ListedAt(tail, principal, rolesOf, r, k);
          assert k >= 0;
          assert ListedAt(instances, principal, rolesOf, r, k + 1);
        }
      } else {
        forall k ensures !ListedAt(instances, principal, rolesOf, r, k) {
          if 0 < k <= |instances| {
            assert !ReadableBefore(instances, principal, rolesOf, k);
          }
        }
      }
    }
  }

  /** A record is listed exactly when some subscription lists it. */
  lemma {:induction false} AllRecordsSpec(lists: seq<seq<DigitalTwinsInstance>>, principal: Option<string>, rolesOf: RolesOf, r: InstanceRecord)
    ensures r in AllRecords(lists, principal, rolesOf) <==>
      exists s :: 0 <= s < |lists| && r in SubscriptionRecords(lists[s], principal, rolesOf)
    decreases |lists|
  {
    if |lists| > 0 {
      AllRecordsSpec(lists[1..], principal, rolesOf, r);
      if exists s :: 0 <= s < |lists| && r in SubscriptionRecords(lists[s], principal, rolesOf) {
        var s :| 0 <= s < |lists| && r in SubscriptionRecords(lists[s], principal, rolesOf);
        if s > 0 { assert lists[1..][s - 1] == lists[s]; }
      }
      if exists s :: 0 <= s < |lists[1..]| && r in SubscriptionRecords(lists[1..][s], principal, rolesOf) {
        var s :| 0 <= s < |lists[1..]| && r in SubscriptionRecords(lists[1..][s], principal, rolesOf);
        assert lists[s + 1] == lists[1..][s];
      }
    }
  }

  /** A subscription with one rejected role lookup contributes nothing. */
  lemma RejectedLookupDropsSubscription(instances: seq<DigitalTwinsInstance>, principal: Option<string>, rolesOf: RolesOf, k: nat)
    requires k < |instances| && rolesOf(instances[k].id, principal).FetchFailed?
    ensures SubscriptionRecords(instances, principal, rolesOf) == []
  {
  }

  /** The instance listing of each subscription id: the call fails, or the
      listing's `value`, `None` when it has none (and reading it throws). */
  type InstancesOf = string -> Fetch<Option<seq<DigitalTwinsInstance>>>

  /** The instance listings of the given subscriptions, `None` when one of
      them makes the operation throw. */
  function InstanceLists(ids: seq<string>, instancesOf: InstancesOf): (r: Option<seq<seq<DigitalTwinsInstance>>>)
    ensures r.Some? ==> |r.value| == |ids|
    ensures r.Some? ==> forall i :: 0 <= i < |ids| ==> instancesOf(ids[i]) == Fetched(Some(r.value[i]))
    ensures r.None? ==> exists i :: 0 <= i < |ids| && !(instancesOf(ids[i]).Fetched? && instancesOf(ids[i]).value.Some?)
    decreases |ids|
  {
    if |ids| == 0 then Some([])
    else
      var first := instancesOf(ids[0]);
      match InstanceLists(ids[1..], instancesOf)
      case None => None
      case Some(rest) =>
        if first.Fetched? && first.value.Some? then
          assert forall i :: 1 <= i < |ids| ==> ids[i] == ids[1..][i - 1];
          Some([first.value.value] + rest)
        else None
  }

  /** The result of `getADTInstances` for the adapter's tenant and principal. */
  function ADTInstances(subscriptions: Fetch<seq<Subscription>>, tenantId: Option<string>, principal: Option<string>,
                        instancesOf: InstancesOf, rolesOf: RolesOf): (r: AdapterResult<seq<InstanceRecord>>)
    ensures subscriptions.FetchFailed? ==> r == EscapedResult()
    ensures subscriptions.Fetched? ==>
      var ids := SubscriptionsInTenant(subscriptions.value, tenantId);
      && (r.result.None? <==> exists i :: 0 <= i < |ids| && !(instancesOf(ids[i]).Fetched? && instancesOf(ids[i]).value.Some?))
      && (r.result.None? ==> r == EscapedResult())
      && (r.result.Some? ==> r.errors == [])
  {
    match subscriptions
    case FetchFailed => EscapedResult()
    case Fetched(subs) =>
      match InstanceLists(SubscriptionsInTenant(subs, tenantId), instancesOf)
      case None => EscapedResult()
      case Some(lists) => AdapterResult(Some(AllRecords(lists, principal, rolesOf)), [])
  }

  /** With the listings index-aligned to the subscription ids, some listing
      contributes a record iff the listing of some id does. */
  lemma ListedRecords(ids: seq<string>, ls: seq<seq<DigitalTwinsInstance>>, instancesOf: InstancesOf,
                      principal: Option<string>, rolesOf: RolesOf, rec: InstanceRecord)
    requires |ls| == |ids|
    requires forall i :: 0 <= i < |ids| ==> instancesOf(ids[i]) == Fetched(Some(ls[i]))
    ensures (exists i :: 0 <= i < |ls| && rec in SubscriptionRecords(ls[i], principal, rolesOf)) <==>
            (exists i :: 0 <= i < |ids| && instancesOf(ids[i]).Fetched? && instancesOf(ids[i]).value.Some?
                         && rec in SubscriptionRecords(instancesOf(ids[i]).value.value, principal, rolesOf))
  {
    if exists i :: 0 <= i < |ls| && rec in SubscriptionRecords(ls[i], principal, rolesOf) {
      var i :| 0 <= i < |ls| && rec in SubscriptionRecords(ls[i], principal, rolesOf);
      assert instancesOf(ids[i]) == Fetched(Some(ls[i]));
    }
  }

  /** On success, a record is returned iff the listing of some in-tenant
      subscription contributes it. */
  lemma ADTInstancesSpec(subs: seq<Subscription>, tenantId: Option<string>, principal: Option<string>,
                         instancesOf: InstancesOf, rolesOf: RolesOf, rec: InstanceRecord)
    ensures var r := ADTInstances(Fetched(subs), tenantId, principal, instancesOf, rolesOf);
      var ids := SubscriptionsInTenant(subs, tenantId);
      r.result.Some? ==>
        (rec in r.result.value <==>
           exists i :: 0 <= i < |ids| && instancesOf(ids[i]).Fetched? && instancesOf(ids[i]).value.Some?
                       && rec in SubscriptionRecords(instancesOf(ids[i]).value.value, principal, rolesOf))
  {
    var ids := SubscriptionsInTenant(subs, tenantId);
    var lists := InstanceLists(ids, instancesOf);
    if lists.Some? {
      AllRecordsSpec(lists.value, principal, rolesOf, rec);
      ListedRecords(ids, lists.value, instancesOf, principal, rolesOf, rec);
    }
  }

  /** The fields `getADTInstances` keeps: an argument replaces a field only
      when it is truthy. */
  class AzureManagementAdapter {
    var tenantId: Option<string>
    var uniqueObjectId: Option<string>

    constructor(tenantId: Option<string>, uniqueObjectId: Option<string>)
      ensures this.tenantId == tenantId && this.uniqueObjectId == uniqueObjectId
    {
      this.tenantId := tenantId;
      this.uniqueObjectId := uniqueObjectId;
    }

    method GetADTInstances(tenantIdArg: Option<string>, uniqueObjectIdArg: Option<string>,
                           subscriptions: Fetch<seq<Subscription>>, instancesOf: InstancesOf, rolesOf: RolesOf)
      returns (result: AdapterResult<seq<InstanceRecord>>)
      modifies this
      ensures tenantId == OrText(tenantIdArg, old(tenantId))
      ensures uniqueObjectId == OrText(uniqueObjectIdArg, old(uniqueObjectId))
      ensures result == ADTInstances(subscriptions, tenantId, uniqueObjectId, instancesOf, rolesOf)
    {
      if TruthyText(tenantIdArg) {
        tenantId := tenantIdArg;
      }
      if TruthyText(uniqueObjectIdArg) {
        uniqueObjectId := uniqueObjectIdArg;
      }
      if subscriptions.FetchFailed? {
        return EscapedResult();
      }
      var lists := InstanceLists(SubscriptionsInTenant(subscriptions.value, tenantId), instancesOf);
      if lists.None? {
        return EscapedResult();
      }
      var records := CollectInstances(lists.value, uniqueObjectId, rolesOf);
      result := AdapterResult(Some(records), []);
    }
  }

  /** The loop over the subscriptions' instance listings. */
  method CollectInstances(lists: seq<seq<DigitalTwinsInstance>>, principal: Option<string>, rolesOf: RolesOf)
    returns (records: seq<InstanceRecord>)
    ensures records == AllRecords(lists, principal, rolesOf)
  {
    records := [];
    var i := 0;
    while i < |lists|
      invariant 0 <= i <= |lists|
      invariant records + AllRecords(lists[i..], principal, rolesOf) == AllRecords(lists, principal, rolesOf)
    {
      AllRecordsFrom(lists, principal, rolesOf, i);
      var pushed := SubscriptionContribution(lists[i], principal, rolesOf);
      ghost var rest := AllRecords(lists[i + 1..], principal, rolesOf);
      AppendAssociates(records, pushed, rest);
      records := records + pushed;
      i := i + 1;
    }
  }

  /** The records from subscription `i` on: those of `i`, then the rest. */
  lemma AllRecordsFrom(lists: seq<seq<DigitalTwinsInstance>>, principal: Option<string>, rolesOf: RolesOf, i: nat)
    requires i < |lists|
    ensures AllRecords(lists[i..], principal, rolesOf)
      == SubscriptionRecords(lists[i], principal, rolesOf) + AllRecords(lists[i + 1..], principal, rolesOf)
  {
    assert lists[i..][1..] == lists[i + 1..];
  }

  lemma AppendAssociates<T>(a: seq<T>, b: seq<T>, c: seq<T>)
    ensures a + (b + c) == (a + b) + c
  {
  }

  /** One iteration of the loop: an empty listing is skipped, and a rejected
      role lookup abandons the subscription. */
  method SubscriptionContribution(instances: seq<DigitalTwinsInstance>, principal: Option<string>, rolesOf: RolesOf)
    returns (pushed: seq<InstanceRecord>)
    ensures pushed == SubscriptionRecords(instances, principal, rolesOf)
  {
    pushed := [];
    if |instances| > 0 {
      var fetched := AllRolesFetched(instances, principal, rolesOf);
      if fetched {
        pushed := PushAccessible(instances, principal, rolesOf);
      }
    }
  }

  /** The `map` over one subscription's instances, which pushes each
      accessible instance until a role assignment cannot be read. */
  method PushAccessible(instances: seq<DigitalTwinsInstance>, principal: Option<string>, rolesOf: RolesOf)
    returns (pushed: seq<InstanceRecord>)
    requires AllRolesFetched(instances, principal, rolesOf)
    ensures pushed == RecordsUntilThrow(instances, principal, rolesOf)
  {
    pushed := [];
    var k := 0;
    assert instances[0..] == instances;
    while k < |instances|
      invariant 0 <= k <= |instances|
      invariant AllRolesFetched(instances[k..], principal, rolesOf)
      invariant pushed + RecordsUntilThrow(instances[k..], principal, rolesOf) == RecordsUntilThrow(instances, principal, rolesOf)
    {
      WalkStep(instances, principal, rolesOf, k, pushed);
      var granted := GrantsDataAccess(rolesOf(instances[k].id, principal).value);
      if granted.None? {
        return;
      }
      if granted.value {
        pushed := pushed + [Record(instances[k])];
      }
      k := k + 1;
    }
  }

  /** One step of the walk, from instance `k` with `pushed` recorded so far:
      an unreadable instance ends it with `pushed`, and otherwise instance
      `k` is recorded when granted and the walk goes on with the rest. */
  lemma WalkStep(instances: seq<DigitalTwinsInstance>, principal: Option<string>, rolesOf: RolesOf, k: nat,
                 pushed: seq<InstanceRecord>)
    requires AllRolesFetched(instances, principal, rolesOf)
    requires k < |instances| && AllRolesFetched(instances[k..], principal, rolesOf)
    requires pushed + RecordsUntilThrow(instances[k..], principal, rolesOf) == RecordsUntilThrow(instances, principal, rolesOf)
    ensures AllRolesFetched(instances[k + 1..], principal, rolesOf)
    ensures GrantsDataAccess(rolesOf(instances[k].id, principal).value).None? ==>
      pushed == RecordsUntilThrow(instances, principal, rolesOf)
    ensures GrantsDataAccess(rolesOf(instances[k].id, principal).value) == Some(true) ==>
      (pushed + [Record(instances[k])]) + RecordsUntilThrow(instances[k + 1..], principal, rolesOf)
        == RecordsUntilThrow(instances, principal, rolesOf)
    ensures GrantsDataAccess(rolesOf(instances[k].id, principal).value) == Some(false) ==>
      pushed + RecordsUntilThrow(instances[k + 1..], principal, rolesOf) == RecordsUntilThrow(instances, principal, rolesOf)
  {
    var rest := instances[k..];
    assert rest[1..] == instances[k + 1..];
    assert rest[0] == instances[k];
    TailFetched(rest, principal, rolesOf);
    var g := GrantsDataAccess(rolesOf(instances[k].id, principal).value);
    if g.None? {
      assert RecordsUntilThrow(rest, principal, rolesOf) == [];
      assert pushed + [] == pushed;
    } else if g.value {
      assert RecordsUntilThrow(rest, principal, rolesOf) == [Record(instances[k])] + RecordsUntilThrow(rest[1..], principal, rolesOf);
      assert pushed + ([Record(instances[k])] + RecordsUntilThrow(rest[1..], principal, rolesOf))
        == (pushed + [Record(instances[k])]) + RecordsUntilThrow(rest[1..], principal, rolesOf);
    } else {
      assert RecordsUntilThrow(rest, principal, rolesOf) == [] + RecordsUntilThrow(rest[1..], principal, rolesOf);
      assert [] + RecordsUntilThrow(rest[1..], principal, rolesOf) == RecordsUntilThrow(rest[1..], principal, rolesOf);
    }
  }
}
