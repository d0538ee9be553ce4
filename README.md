# iot-cardboard-js core, modelled in Dafny

This project models the decision rules, list and map manipulations and small
state machines at the core of the iot-cardboard-js component library.

**Adapters**
- `ADT3DSceneAdapter`: resolving a Digital Twins instance's data-history connection, finding a storage container among the caller's resources, and repairing missing role assignments.
- `AzureManagementAdapter`: discovering the Digital Twins instances the caller may read.
- Data envelopes: `StandardModelData` and `ExpandedADTModelData`, with their `hasNoData` question, and `AdapterResult`.

**Helpers and context**
- The pure helpers of `Utils.ts`.
- The deeplink context: its reducer, comma-separated array parameters, link building and initial state.

**Migration and components**
- The scene-configuration migration script.
- The list, map and validity logic of five components:
  - the advanced-search query builder;
  - the behaviour form;
  - the environment picker dialog;
  - the property editor modal;
  - the file uploader.

Modules follow the source files: `AdapterData`, `SceneAdapter`,
`ManagementAdapter`, `Utils`, `Deeplink`, `Migration`, `QueryBuilder`,
`BehaviorsForm`, `EnvironmentPicker`, `PropertyEditor`, `FileUploader`. The
supporting modules are:
- `Wrappers`: `Option`.
- `JsValues`: JavaScript values and truthiness.
- `Strings`: JavaScript `split`, `join`, `replaceAll`, `startsWith` and `endsWith`, with their laws.
- `Urls`: the host name and path name of a parsed URL.

Where the source mutates state, the model does too:
- the adapters, the query builder, the draft backup, the picker, the modal and the uploader are classes whose methods change their fields;
- the property editor writes into an `array`;
- loops become `while`/`for` loops with invariants, proved against a specification function.

Collaborators whose code is not part of this model enter as function parameters. They are:
- the HTTP answers (resource lists, connection listings, role-assignment lists);
- `getMissingRoleDefinitions` and `assignRole`;
- WHATWG `URL` parsing, as a partial function to a host name and path name;
- `addHttpsPrefix`;
- the valid host suffix lists;
- local storage contents;
- generated ids.

The exception-catching method sandbox is modelled as an error accumulator:
- an operation's caught failure becomes one pushed non-catastrophic error;
- an exception that escapes becomes an `Escaped` error.

Where the code and its written description disagree, the model follows the
code. The two handlers in which the code is evidently wrong (see "## Findings")
are modelled as written. The search of the container lookup and the host
comparison of typed environment input each take a flag. The handlers pass the
as-written setting, and the corrected definition stands beside it with its own
lemmas. Elsewhere the code is followed even where it surprises: in the role repair a failed assignment that resolves
without data is silently dropped, as the code does. Only a rejected call fails
the whole repair.

## Model

| member | source | states |
|---|---|---|
| AdapterData.EscapedResult | src/Adapters/ADT3DSceneAdapter.ts:90-101 | a sandboxed operation whose exception escapes yields no data and exactly one escaped error |
| AdapterData.FetchFailedResult | src/Adapters/ADT3DSceneAdapter.ts:195-202 | a caught failure yields no data and exactly one non-catastrophic DataFetchFailed error |
| AdapterData.FalsyValuesAreData | src/Models/Classes/AdapterDataClasses/StandardModelData.ts:10-12 | every falsy value other than null and undefined (false, 0, NaN, '') counts as data |
| AdapterData.EmptyExpansionIsData | src/Models/Classes/AdapterDataClasses/ExpandedADTModelData.ts:15-17 | a root model with an empty expansion list still has data |
| SceneAdapter.PieceAt | src/Adapters/ADT3DSceneAdapter.ts:65-66 | indexing a split result is defined exactly when the index is below the number of pieces |
| SceneAdapter.AccountNameIsFirstLabel | src/Adapters/ADT3DSceneAdapter.ts:65 | the account name is always set, and is the host name's text before its first '.' (the whole host without a '.') |
| SceneAdapter.ContainerNameIsFirstSegment | src/Adapters/ADT3DSceneAdapter.ts:66 | for a path '/' + segment + (empty or '/…'), the container name is that segment |
| SceneAdapter.NoContainerWithoutSlash | src/Adapters/ADT3DSceneAdapter.ts:66 | a path without '/' gives no container name (undefined) |
| SceneAdapter.ADT3DSceneAdapter.constructor | src/Adapters/ADT3DSceneAdapter.ts:61-70 | a truthy URL that parses sets the host, account and container names from it; any other URL leaves them unset; nothing is memoised yet |
| SceneAdapter.FindInstance | src/Adapters/ADT3DSceneAdapter.ts:98-101 | the found instance is listed and has the host name; none found means no listed instance has it |
| SceneAdapter.FindInstanceIsFirst | src/Adapters/ADT3DSceneAdapter.ts:98-101 | the instance found is the first one with the host name |
| SceneAdapter.TableNameShape | src/Adapters/ADT3DSceneAdapter.ts:121-124 | the table name is 'adt_dh_' + the database name with every '-' replaced by '_' + '_' + the location text ('undefined' when absent) |
| SceneAdapter.FetchConnection | src/Adapters/ADT3DSceneAdapter.ts:103-130 | an unknown host, a failed request, no connection or a connection without properties pushes exactly one non-catastrophic error and changes nothing; a listed host whose first connection names a database yields its cluster and database and the derived table name, with no error; a missing database name keeps the table name and clears the database |
| SceneAdapter.ResolveConnection | src/Adapters/ADT3DSceneAdapter.ts:78-137 | a resolved memo is returned as is with no error and no query; otherwise the management calls are made; a result is the new memo; at most one error |
| SceneAdapter.ResolutionIsMemoised | src/Adapters/ADT3DSceneAdapter.ts:79-88 | once resolved, a second call returns the same memo without querying, whatever the answers |
| SceneAdapter.SuccessfulLookup | src/Adapters/ADT3DSceneAdapter.ts:98-124 | an error-free resolution takes cluster and database from the first connection of the first instance with the host name, and derives the table name |
| SceneAdapter.ListedConnectionResolves | src/Adapters/ADT3DSceneAdapter.ts:78-130 | a listed host whose first connection names a database resolves without error to that connection's values, and the memo is then resolved when the endpoint and database name are truthy |
| SceneAdapter.FailedLookupKeepsMemo | src/Adapters/ADT3DSceneAdapter.ts:103-135 | a failing connection step pushes exactly one non-catastrophic error and keeps the memoised table name; the cluster URL may already be overwritten, and the database name is then either unchanged or cleared, since the assignments before the throw have run |
| SceneAdapter.UnknownHostChangesNothing | src/Adapters/ADT3DSceneAdapter.ts:99-130 | with no instance of the host name, the call fails with one error and the memo is unchanged |
| SceneAdapter.ADT3DSceneAdapter.GetConnectionInformation | src/Adapters/ADT3DSceneAdapter.ts:78-137 | the result and the new memo fields are those of the resolution; the container fields are untouched |
| SceneAdapter.AccountSegment | src/Adapters/ADT3DSceneAdapter.ts:176 | the segment after '/storageAccounts/' up to the next '/' contains no '/' |
| SceneAdapter.FindContainer | src/Adapters/ADT3DSceneAdapter.ts:173-178 | a found resource is listed and is the container of the names |
| SceneAdapter.FindContainerSpec | src/Adapters/ADT3DSceneAdapter.ts:172-178 | found iff some resource matches account segment and name after only non-matching, well-formed ones; not found iff all are passed over; the found one is the first match |
| SceneAdapter.NothingMatchesNoNames | src/Adapters/ADT3DSceneAdapter.ts:173-178 | with both names unset, no resource can match |
| SceneAdapter.LookupNames | src/Adapters/ADT3DSceneAdapter.ts:145-159 | corrected: a URL argument that parses gives the kept and the searched names both from the URL; one that does not parse keeps the fields and searches with none; no argument uses the fields for both |
| SceneAdapter.LookupNamesAsWritten | src/Adapters/ADT3DSceneAdapter.ts:145-159 | as written: the kept names are the same as the corrected ones, but with any truthy URL argument the searched names are unset |
| SceneAdapter.AsWrittenUrlArgumentNeverFinds | src/Adapters/ADT3DSceneAdapter.ts:145-159 | as written, a parsed URL argument updates the adapter fields but the search uses unset names, so it never finds a container |
| SceneAdapter.UrlArgumentFindsContainer | src/Adapters/ADT3DSceneAdapter.ts:145-178 | corrected: with a URL argument the search uses the parsed names, and finds the first container matching them |
| SceneAdapter.FindFirstContainer | src/Adapters/ADT3DSceneAdapter.ts:173-178 | the first matching resource, past non-matching well-formed ones, is the one found |
| SceneAdapter.NamesFor | src/Adapters/ADT3DSceneAdapter.ts:145-164 | the kept names never depend on the flag; without an argument both are the fields; as written, or with an unparsable argument, the searched names are unset |
| SceneAdapter.LookupContainer | src/Adapters/ADT3DSceneAdapter.ts:142-204 | the remembered names follow the URL argument; a found container's id is remembered and its missing roles returned with no error, or a fetch failure when computing them throws; no listing or no match gives the {null, null} sentinel and keeps the id; a throwing listing or search gives one fetch-failed error and keeps the id |
| SceneAdapter.LookupWithUrlArgumentAsWritten | src/Adapters/ADT3DSceneAdapter.ts:145-193 | as written, a URL argument that parses is remembered, the container id is kept, and the answer is the {null, null} sentinel or a fetch failure, never the missing roles |
| SceneAdapter.ADT3DSceneAdapter.GetMissingStorageContainerAccessRoles | src/Adapters/ADT3DSceneAdapter.ts:142-204 | the new names, container id and result are those of the lookup with the search as written; the connection memo is untouched |
| SceneAdapter.ChooseInterchangeableRole | src/Adapters/ADT3DSceneAdapter.ts:225-262 | a role is chosen iff the group is non-empty; Storage Blob Data Contributor first, else Reader, else the group's first role |
| SceneAdapter.ChosenRoles | src/Adapters/ADT3DSceneAdapter.ts:225-264 | at most one chosen role per group |
| SceneAdapter.GroupOutcome | src/Adapters/ADT3DSceneAdapter.ts:226-264 | undefined iff the group is empty; otherwise the outcome of assigning one of the group's roles, Storage Blob Data Contributor when offered |
| SceneAdapter.Kept | src/Adapters/ADT3DSceneAdapter.ts:265-277 | no more assignments than results |
| SceneAdapter.KeptSpec | src/Adapters/ADT3DSceneAdapter.ts:265-277 | an assignment is pushed iff some result resolved with it as data |
| SceneAdapter.KeptAppend | src/Adapters/ADT3DSceneAdapter.ts:265-277 | the enforced results' assignments come first, then the groups', each in result order |
| SceneAdapter.EnforcedOutcomes | src/Adapters/ADT3DSceneAdapter.ts:215-223 | one assignment outcome per enforced role, index-aligned |
| SceneAdapter.GroupOutcomes | src/Adapters/ADT3DSceneAdapter.ts:225-264 | one entry per group, index-aligned: the chosen role's outcome, or undefined for an empty group |
| SceneAdapter.ChosenRolesAligned | src/Adapters/ADT3DSceneAdapter.ts:225-264 | with every group non-empty, exactly one call per group, its chosen role |
| SceneAdapter.RepairCalls | src/Adapters/ADT3DSceneAdapter.ts:215-280 | a successful repair had both lists and a role for every group; it called every enforced role, then each group's chosen role; its result is the data of the enforced outcomes followed by that of the group outcomes, in order, with no error |
| SceneAdapter.RepairRoles | src/Adapters/ADT3DSceneAdapter.ts:209-290 | no enforced list means no calls and a fetch failure; otherwise the enforced roles are called first; the result is a fetch failure or data with no error |
| SceneAdapter.RepairFailure | src/Adapters/ADT3DSceneAdapter.ts:215-288 | a missing enforced or interchangeable list makes the repair fail with no data and one fetch-failed error |
| SceneAdapter.PartialFailure | src/Adapters/ADT3DSceneAdapter.ts:266-280 | an assignment that resolves without data is skipped; the others are kept in order |
| SceneAdapter.ADT3DSceneAdapter.AddMissingRolesToStorageContainer | src/Adapters/ADT3DSceneAdapter.ts:209-290 | the calls made and the result are the repair's for the remembered container id and principal |
| SceneAdapter.AssignEach | src/Adapters/ADT3DSceneAdapter.ts:215-223 | the map loop calls each enforced role once, in order, and returns their outcomes |
| SceneAdapter.AssignOnePerGroup | src/Adapters/ADT3DSceneAdapter.ts:225-264 | the map loop makes exactly the chosen calls and returns the per-group outcomes |
| SceneAdapter.CollectAssignments | src/Adapters/ADT3DSceneAdapter.ts:266-280 | the forEach loops keep every result holding data, in order, and throw on an undefined entry |
| ManagementAdapter.DataRolePath | src/Adapters/AzureManagementAdapter.ts:85-102 | a data role is a role definition path whose last '/' segment is the Data Reader or Data Owner id, and every such path qualifies |
| ManagementAdapter.GrantsDataAccess | src/Adapters/AzureManagementAdapter.ts:85-102 | no role list grants nothing; it throws iff some entry has no role definition id; when every entry has one, access is granted iff some entry names a data role |
| ManagementAdapter.LastPieceAfterSlash | src/Adapters/AzureManagementAdapter.ts:88-91 | the id popped from '…/' + id is that id when it has no '/' |
| ManagementAdapter.SubscriptionsInTenant | src/Adapters/AzureManagementAdapter.ts:39-41 | no more subscription ids than subscriptions |
| ManagementAdapter.SubscriptionsInTenantSpec | src/Adapters/AzureManagementAdapter.ts:39-41 | membership: an id is queried iff some subscription with that id has the adapter's tenant |
| ManagementAdapter.SubscriptionsInTenantAppend | src/Adapters/AzureManagementAdapter.ts:39-41 | order: the filter distributes over concatenation, so the ids keep the listing order |
| ManagementAdapter.SubscriptionsInTenantOne | src/Adapters/AzureManagementAdapter.ts:39-41 | one subscription is kept iff its tenant equals the adapter's |
| ManagementAdapter.RecordsUntilThrow | src/Adapters/AzureManagementAdapter.ts:85-110 | at most one record per instance |
| ManagementAdapter.SubscriptionRecords | src/Adapters/AzureManagementAdapter.ts:66-113 | at most one record per instance; none when some role lookup rejects |
| ManagementAdapter.AllRecords | src/Adapters/AzureManagementAdapter.ts:59-115 | no records when no subscription contributes one |
| ManagementAdapter.RecordsUntilThrowSpec | src/Adapters/AzureManagementAdapter.ts:85-110 | membership: a record is pushed iff an instance whose predecessors' role lists are readable grants data access and has that record |
| ManagementAdapter.RecordsUntilThrowAppend | src/Adapters/AzureManagementAdapter.ts:85-110 | order: past a prefix whose role lists are all readable, the prefix's records come first, then the rest's |
| ManagementAdapter.RecordsUntilThrowOne | src/Adapters/AzureManagementAdapter.ts:85-110 | one instance gives its record iff it grants data access |
| ManagementAdapter.AllRecordsSpec | src/Adapters/AzureManagementAdapter.ts:59-115 | membership: a record is in the result iff some subscription contributes it |
| ManagementAdapter.AllRecordsAppend | src/Adapters/AzureManagementAdapter.ts:59-115 | order: the records of concatenated listings are the first listings' followed by the rest's |
| ManagementAdapter.AllRecordsOne | src/Adapters/AzureManagementAdapter.ts:59-115 | one listing gives exactly that subscription's records |
| ManagementAdapter.RejectedLookupDropsSubscription | src/Adapters/AzureManagementAdapter.ts:67-113 | a rejected role lookup drops that subscription's instances, not the others' |
| ManagementAdapter.InstanceLists | src/Adapters/AzureManagementAdapter.ts:43-57 | one listing per queried subscription, in order, or a failure when some listing fails |
| ManagementAdapter.ADTInstances | src/Adapters/AzureManagementAdapter.ts:26-118 | a failed subscription listing gives the escaped result; otherwise there is no data, and then the escaped result, iff some in-tenant subscription's instance listing fails or has no value; a success has no error |
| ManagementAdapter.ADTInstancesSpec | src/Adapters/AzureManagementAdapter.ts:26-118 | on success, a record is returned iff the instance listing of some in-tenant subscription contributes it |
| ManagementAdapter.AzureManagementAdapter.constructor | src/Adapters/AzureManagementAdapter.ts:17-24 | the adapter keeps its tenant and principal |
| ManagementAdapter.AzureManagementAdapter.GetADTInstances | src/Adapters/AzureManagementAdapter.ts:17-118 | truthy arguments overwrite the tenant and principal; the result is the filter over the answers for the new values |
| ManagementAdapter.CollectInstances | src/Adapters/AzureManagementAdapter.ts:59-115 | the indexed loop yields the records of all subscriptions in subscription order |
| ManagementAdapter.SubscriptionContribution | src/Adapters/AzureManagementAdapter.ts:66-113 | one iteration: nothing for an empty listing or a failed role lookup, otherwise the accessible records |
| ManagementAdapter.PushAccessible | src/Adapters/AzureManagementAdapter.ts:85-110 | the map pushes the record of each accessible instance, in order, until a role list cannot be read |
| Utils.GetFileType | src/Models/Services/Utils.ts:20-25 | with a '.', the result is the text after the last '.'; without one, the default type |
| Utils.FileTypeOfDottedName | src/Models/Services/Utils.ts:20-25 | "a.b.c" gives "c": only the text after the last dot |
| Utils.FileTypeOfTrailingDot | src/Models/Services/Utils.ts:20-25 | "a." gives the empty type, not the default |
| Utils.FileTypeWithoutDot | src/Models/Services/Utils.ts:20-25 | "readme" gives the default |
| Utils.DigitRunIsMaximal | src/Models/Services/Utils.ts:122 | every run of digits is within the greedy digit run |
| Utils.NumericPrefixIsDecimal | src/Models/Services/Utils.ts:122 | what the expression captures matches -?digits(.digits)? |
| Utils.DecimalPrefixIsCaptured | src/Models/Services/Utils.ts:122 | no decimal prefix is longer than the captured one |
| Utils.GetNumericPart | src/Models/Services/Utils.ts:121-128 | a result is the value of the captured prefix; no capture gives undefined |
| Utils.NumericPartIsLongestPrefix | src/Models/Services/Utils.ts:121-128 | on text without line terminators, the result is the value of the longest decimal prefix |
| Utils.NoDecimalPrefixIsUndefined | src/Models/Services/Utils.ts:121-128 | text not starting with a decimal gives undefined |
| Utils.NumericPartStopsAtSecondPoint | src/Models/Services/Utils.ts:121-128 | "1.5.3" gives 1.5 |
| Utils.NumericPartDropsBarePoint | src/Models/Services/Utils.ts:121-128 | "1." gives 1 |
| Utils.NumericPartDropsSuffix | src/Models/Services/Utils.ts:120-128 | "-12px" gives -12 |
| Utils.NumericPartUndefinedExamples | src/Models/Services/Utils.ts:121-128 | "abc", ".5" and "-" give undefined |
| Utils.NumericPartStopsAtLineEnd | src/Models/Services/Utils.ts:122-125 | "7\nx" gives undefined: `.*` stops at the line end, so the replaced text is not a number |
| Utils.ParseViewProperties | src/Models/Services/Utils.ts:83-91 | a key is kept iff it is listed, does not start with '$' and is neither image property name |
| Utils.ParseViewPropertiesAppend | src/Models/Services/Utils.ts:83-91 | the filter distributes over concatenation, so it keeps key order |
| Utils.ParseViewPropertiesKeepsAll | src/Models/Services/Utils.ts:83-91 | keys that are all view properties are returned unchanged |
| Utils.GetModelContentType | src/Models/Services/Utils.ts:130-132 | a single type is returned; an array gives its first name (undefined when empty) |
| Utils.GetModelContentUnit | src/Models/Services/Utils.ts:134-139 | the property's unit only for an array type with a truthy second name; null otherwise or without a property |
| Utils.CreateDTDLModelId | src/Models/Services/Utils.ts:141-143 | the id starts with 'dtmi:assetGen:', ends with ';1' and has the name in between |
| Utils.ModelIdRoundTrip | src/Models/Services/Utils.ts:141-143 | the name is recovered from the id |
| Utils.ModelIdFromName | src/Models/Services/Utils.ts:141-143 | an id of the generated shape is the id of the name it holds |
| Utils.FilterNodesForBIM | src/Models/Services/Utils.ts:27-46 | the forEach loop yields the filter's result |
| Utils.BimFilter | src/Models/Services/Utils.ts:27-46 | a successful filter keeps at most the given nodes, each one of them |
| Utils.BimFilterFailureSticks | src/Models/Services/Utils.ts:30-32 | once a node throws, the whole filter throws |
| Utils.BimFilterSpec | src/Models/Services/Utils.ts:27-46 | a successful filter keeps a node, unchanged under its key, iff exactly one of its contents is the in-BIM relationship to the parent model |
| Utils.BimFilterThrows | src/Models/Services/Utils.ts:31-32 | a node without model contents makes the filter throw |
| Utils.HasOwnProperty | src/Models/Services/Utils.ts:80-81 | null or undefined throw; an object owns the name iff one of its fields has it |
| Utils.HasAllProcessGraphicsCardProperties | src/Models/Services/Utils.ts:93-107 | true iff the twin owns the view-data property whose value owns both image properties; throws iff that value is null or undefined |
| Utils.ProcessGraphicsTwin | src/Models/Services/Utils.ts:93-107 | a twin with view data holding both image properties qualifies |
| Deeplink.Reduce | src/Models/Context/DeeplinkContext/DeeplinkContext.tsx:47-77 | each action sets its own field (the payload, or '' / [] when falsy); a mode change also clears the selection; nothing else changes; an unknown action changes nothing |
| Deeplink.ReduceIsIdempotent | src/Models/Context/DeeplinkContext/DeeplinkContext.tsx:47-77 | dispatching the same action twice is the same as once |
| Deeplink.IndependentActionsCommute | src/Models/Context/DeeplinkContext/DeeplinkContext.tsx:47-77 | actions writing disjoint fields commute |
| Deeplink.ModeChangeDiscardsSelection | src/Models/Context/DeeplinkContext/DeeplinkContext.tsx:61-66 | a mode change after selecting an element and layers gives the state of the mode change alone |
| Deeplink.SerializeArrayParam | src/Models/Context/DeeplinkContext/DeeplinkContext.tsx:220-223 | a missing or empty array gives '' |
| Deeplink.ParseArrayParam | src/Models/Context/DeeplinkContext/DeeplinkContext.tsx:229-232 | a result iff the text is non-empty, and then at least one piece |
| Deeplink.ParseSerialize | src/Models/Context/DeeplinkContext/DeeplinkContext.tsx:215-232 | a non-empty array without ',' in its values and with a non-empty join survives serialising and parsing |
| Deeplink.SerializeParse | src/Models/Context/DeeplinkContext/DeeplinkContext.tsx:215-232 | parsing then serialising gives the text back ('' for a missing value) |
| Deeplink.SeparatorInValueSplits | src/Models/Context/DeeplinkContext/DeeplinkContext.tsx:215-232 | a value holding ',' comes back as two values |
| Deeplink.QueryParameters | src/Models/Context/DeeplinkContext/DeeplinkContext.tsx:185-197 | the parameters are in the order sceneId, selectedElementIds, selectedLayerIds, mode, adtUrl, storageUrl |
| Deeplink.BuildDeeplink | src/Models/Context/DeeplinkContext/DeeplinkContext.tsx:179-213 | '' without a state; throws without options; element and layer ids present iff their option is set; the other four fields always copied |
| Deeplink.InitialState | src/Models/Context/DeeplinkContext/DeeplinkContext.tsx:102-123 | each field from the URL parameter, else the initial state, else local storage (URLs only), else the default; the element is the first parsed id |
| Deeplink.DeeplinkRestoresState | src/Models/Context/DeeplinkContext/DeeplinkContext.tsx:102-123 | opening a link built with both options from a restorable state gives that state back |
| Migration.ConvertedRange | tools/migrate3DScenesConfiguration.js:13-21 | a converted range is a values range with the same id and no label |
| Migration.ConvertedRanges | tools/migrate3DScenesConfiguration.js:13-21 | the same number of ranges, each converted, in order |
| Migration.LegacyRangeConversion | tools/migrate3DScenesConfiguration.js:13-21 | {min, max, color, id} becomes {values: [min, max], visual: {color}, id} |
| Migration.ConvertRanges | tools/migrate3DScenesConfiguration.js:13-21 | the forEach loop pushes the converted ranges |
| Migration.ConvertedStatusColoring | tools/migrate3DScenesConfiguration.js:6-26 | an ExpressionRangeVisual of type NumericRange, value expression from the status expression, same object id expression, its ranges the converted old ones in order |
| Migration.ConvertStatusColoring | tools/migrate3DScenesConfiguration.js:6-26 | the field-by-field method builds the converted visual |
| Migration.AlertLabel | tools/migrate3DScenesConfiguration.js:39 | the label is the template text wrapped in backticks |
| Migration.ConvertedAlert | tools/migrate3DScenesConfiguration.js:28-47 | an ExpressionRangeVisual of type CategoricalValues, value expression from the trigger expression, same object id expression |
| Migration.AlertHasOneRange | tools/migrate3DScenesConfiguration.js:28-47 | exactly one range, values [true], the old colour, the backticked label and the given id |
| Migration.ConvertedGauge | tools/migrate3DScenesConfiguration.js:49-69 | a Gauge keeping id, value expression, label and units, its ranges the converted old ones in order |
| Migration.ConvertGauge | tools/migrate3DScenesConfiguration.js:49-69 | the field-by-field method builds the converted gauge |
| Migration.MigratedWidget | tools/migrate3DScenesConfiguration.js:110-117 | a gauge stays a gauge with its id, value expression, label and units, and its ranges converted in order; any other widget is unchanged |
| Migration.MigratedWidgets | tools/migrate3DScenesConfiguration.js:110-117 | as many widgets, each migrated in place |
| Migration.MigrateWidgets | tools/migrate3DScenesConfiguration.js:110-117 | the widget loop yields the migrated widgets |
| Migration.MigrateVisual | tools/migrate3DScenesConfiguration.js:105-120 | one visual migrated by its type |
| Migration.MigratedVisual | tools/migrate3DScenesConfiguration.js:105-120 | legacy status and alert visuals become expression visuals, a status visual's ranges converted in order; a popover keeps its extra keys and has each widget migrated in place; expression and other visuals are unchanged |
| Migration.MigratedVisuals | tools/migrate3DScenesConfiguration.js:105-120 | as many visuals, each migrated with its own new range id |
| Migration.MigrateVisuals | tools/migrate3DScenesConfiguration.js:105-120 | the visuals loop yields the migrated visuals |
| Migration.MigrationKeepsPlaces | tools/migrate3DScenesConfiguration.js:105-120 | status and alert visuals are converted in their place; a popover keeps its place with only its gauges converted; other visuals are unchanged |
| Migration.ExpressionVisualsSettle | tools/migrate3DScenesConfiguration.js:105-120 | migrating a non-popover visual twice is the same as once |
| Migration.SecondGaugeMigrationLosesBounds | tools/migrate3DScenesConfiguration.js:49-69 | a second run over a migrated gauge turns its range bounds and colour into undefined |
| Migration.Behavior.constructor | tools/migrate3DScenesConfiguration.js:105-106 | a behaviour holds its visuals |
| Migration.MigrateBehaviors | tools/migrate3DScenesConfiguration.js:105-120 | every behaviour's visuals are replaced by their migration, in place |
| Migration.StripByteOrderMark | tools/migrate3DScenesConfiguration.js:86-92 | one leading U+FEFF is removed; other text is unchanged |
| Migration.Prepass | tools/migrate3DScenesConfiguration.js:86-96 | after the pre-pass no 'linkedTwin' and no 'LinkedTwin' remain |
| Migration.PrepassKeepsOtherText | tools/migrate3DScenesConfiguration.js:86-96 | text without a byte order mark or those words is unchanged |
| QueryBuilder.CheckIsValidQuery | src/Components/AdvancedSearch/Internal/QueryBuilder/QueryBuilder.tsx:134-145 | true iff every recorded row is valid; true for an empty map |
| QueryBuilder.SpliceOne | src/Components/AdvancedSearch/Internal/QueryBuilder/QueryBuilder.tsx:62-64 | splice(index, 1) removes one entry iff the list is non-empty and the index is below its length (negative from the end) |
| QueryBuilder.RemovalIsSplice | src/Components/AdvancedSearch/Internal/QueryBuilder/QueryBuilder.tsx:59-65 | index 0's shift is the same as splice |
| QueryBuilder.RemovalDropsExactlyOneRow | src/Components/AdvancedSearch/Internal/QueryBuilder/QueryBuilder.tsx:57-75 | a row in range is removed and the others kept in order |
| QueryBuilder.NewRowDisablesSearch | src/Components/AdvancedSearch/Internal/QueryBuilder/QueryBuilder.tsx:113-126 | a row recorded invalid disables search whatever the others hold |
| QueryBuilder.ValidRowLeavesOthersDeciding | src/Components/AdvancedSearch/Internal/QueryBuilder/QueryBuilder.tsx:77-85 | a row made valid enables search iff every other recorded row is valid |
| QueryBuilder.Builder.constructor | src/Components/AdvancedSearch/Internal/QueryBuilder/QueryBuilder.tsx:37-45 | one row, empty maps, search disabled |
| QueryBuilder.Builder.RemoveRow | src/Components/AdvancedSearch/Internal/QueryBuilder/QueryBuilder.tsx:57-75 | the row is removed, its id deleted from all three maps, and search disabled iff some remaining row is invalid |
| QueryBuilder.Builder.OnChangeValue | src/Components/AdvancedSearch/Internal/QueryBuilder/QueryBuilder.tsx:77-85 | the row is valid iff its value is non-empty; search disabled accordingly |
| QueryBuilder.Builder.UpdateQuerySnippet | src/Components/AdvancedSearch/Internal/QueryBuilder/QueryBuilder.tsx:87-89 | only the row's snippet changes |
| QueryBuilder.Builder.OnChangeProperty | src/Components/AdvancedSearch/Internal/QueryBuilder/QueryBuilder.tsx:91-111 | the property is recorded, the columns are all recorded names, and the row is valid iff the type is not 'string' |
| QueryBuilder.Builder.AppendRow | src/Components/AdvancedSearch/Internal/QueryBuilder/QueryBuilder.tsx:113-126 | one row at the end recorded invalid; search disabled |
| QueryBuilder.Builder.IsAddDisabled | src/Components/AdvancedSearch/Internal/QueryBuilder/QueryBuilder.tsx:187 | the Add button is disabled exactly at ten rows |
| QueryBuilder.Builder.IsRemoveDisabled | src/Components/AdvancedSearch/Internal/QueryBuilder/QueryBuilder.tsx:177 | Remove is disabled exactly when one row is left |
| BehaviorsForm.CheckValidityMap | src/Components/ADT3DSceneBuilder/Internal/Behaviors/BehaviorsForm.tsx:580-586 | true iff every entry is valid (true for an empty map) |
| BehaviorsForm.ElementsFrom | src/Components/ADT3DSceneBuilder/Internal/Behaviors/BehaviorsForm.tsx:71-74 | the first element-mapping datasource, or none iff there is none |
| BehaviorsForm.GetElementsFromBehavior | src/Components/ADT3DSceneBuilder/Internal/Behaviors/BehaviorsForm.tsx:71-74 | a result is one of the behaviour's datasources and an element mapping; none iff the behaviour has no element mapping |
| BehaviorsForm.MatchedElements | src/Components/ADT3DSceneBuilder/Internal/Behaviors/BehaviorsForm.tsx:131-134 | at most one element per id, each a scene element |
| BehaviorsForm.InitialSelection | src/Components/ADT3DSceneBuilder/Internal/Behaviors/BehaviorsForm.tsx:125-140 | every selected element is a scene element |
| BehaviorsForm.ElementsValidity | src/Components/ADT3DSceneBuilder/Internal/Behaviors/BehaviorsForm.tsx:227-243 | valid iff there is an element mapping and the count after the (de)selection is positive |
| BehaviorsForm.FindElement | src/Components/ADT3DSceneBuilder/Internal/Behaviors/BehaviorsForm.tsx:132 | the found element has the id; none found iff no element has it |
| BehaviorsForm.FindElementIsFirst | src/Components/ADT3DSceneBuilder/Internal/Behaviors/BehaviorsForm.tsx:132 | the element found is the first one with the id |
| BehaviorsForm.MatchedElementsSpec | src/Components/ADT3DSceneBuilder/Internal/Behaviors/BehaviorsForm.tsx:131-134 | membership: an element is added iff some id finds it |
| BehaviorsForm.MatchedElementsAppend | src/Components/ADT3DSceneBuilder/Internal/Behaviors/BehaviorsForm.tsx:131-134 | order: matching distributes over concatenation, so the elements follow the ids' order |
| BehaviorsForm.MatchedElementsOne | src/Components/ADT3DSceneBuilder/Internal/Behaviors/BehaviorsForm.tsx:131-134 | one id adds the element it finds, or nothing |
| BehaviorsForm.InitialSelectionSpec | src/Components/ADT3DSceneBuilder/Internal/Behaviors/BehaviorsForm.tsx:125-140 | membership: an element is selected iff some element-mapping datasource's ids find it |
| BehaviorsForm.InitialSelectionAppend | src/Components/ADT3DSceneBuilder/Internal/Behaviors/BehaviorsForm.tsx:125-140 | order: the selection distributes over concatenation, so it follows the datasource order |
| BehaviorsForm.InitialSelectionOne | src/Components/ADT3DSceneBuilder/Internal/Behaviors/BehaviorsForm.tsx:125-140 | one datasource contributes its matches iff it is an element mapping |
| BehaviorsForm.MatchIds | src/Components/ADT3DSceneBuilder/Internal/Behaviors/BehaviorsForm.tsx:131-134 | the inner loop adds the matching elements in id order |
| BehaviorsForm.SelectInitialElements | src/Components/ADT3DSceneBuilder/Internal/Behaviors/BehaviorsForm.tsx:125-140 | the selection is set to the matches only when there are any |
| BehaviorsForm.BackupStep | src/Components/ADT3DSceneBuilder/Internal/Behaviors/BehaviorsForm.tsx:143-186 | create/edit captures each empty part and keeps a set one; cancel with a backup dispatches one reset with both parts and clears; commit clears; other modes change nothing |
| BehaviorsForm.CaptureKeepsFirst | src/Components/ADT3DSceneBuilder/Internal/Behaviors/BehaviorsForm.tsx:145-157 | a full backup survives further captures |
| BehaviorsForm.CapturesKeepBackup | src/Components/ADT3DSceneBuilder/Internal/Behaviors/BehaviorsForm.tsx:145-157 | any run of captures keeps a full backup and dispatches nothing |
| BehaviorsForm.CancelRestoresFirstCapture | src/Components/ADT3DSceneBuilder/Internal/Behaviors/BehaviorsForm.tsx:143-174 | open, edits, cancel dispatches exactly one reset, to the first draft, and clears the backup |
| BehaviorsForm.RunAfterCaptures | src/Components/ADT3DSceneBuilder/Internal/Behaviors/BehaviorsForm.tsx:145-157 | captures before a run do not change its outcome |
| BehaviorsForm.CancelDispatchesOnce | src/Components/ADT3DSceneBuilder/Internal/Behaviors/BehaviorsForm.tsx:158-174 | a second cancel dispatches nothing |
| BehaviorsForm.DraftBackup.constructor | src/Components/ADT3DSceneBuilder/Internal/Behaviors/BehaviorsForm.tsx:117-118 | both refs start null |
| BehaviorsForm.DraftBackup.OnWidgetFormChange | src/Components/ADT3DSceneBuilder/Internal/Behaviors/BehaviorsForm.tsx:143-186 | the refs and the dispatch are those of one backup step |
| BehaviorsForm.OnCancelClick | src/Components/ADT3DSceneBuilder/Internal/Behaviors/BehaviorsForm.tsx:302-319 | dirty: open the unsaved dialog, register the discard, do not leave; clean: go back and clear the selection |
| EnvironmentPicker.GetUrl | src/Components/EnvironmentPicker/EnvironmentPickerDialog.tsx:618-625 | '' for none, a string as is, an instance as its prefixed host name |
| EnvironmentPicker.AnySuffix | src/Components/EnvironmentPicker/EnvironmentPickerDialog.tsx:284-286 | true iff the host ends with one of the suffixes |
| EnvironmentPicker.IsValidUrl | src/Components/EnvironmentPicker/EnvironmentPickerDialog.tsx:277-307 | valid iff it starts with 'https://', parses, its host ends with a valid suffix, and for a container the path is not '/' |
| EnvironmentPicker.StoredUrls | src/Components/EnvironmentPicker/EnvironmentPickerDialog.tsx:139-146 | a URL is listed iff some stored entry has it as a truthy appAdtUrl; no listed URL is empty |
| EnvironmentPicker.StoredUrlsAppend | src/Components/EnvironmentPicker/EnvironmentPickerDialog.tsx:139-146 | order: the stored URLs distribute over concatenation, so they follow the stored entries |
| EnvironmentPicker.StoredUrlsOne | src/Components/EnvironmentPicker/EnvironmentPickerDialog.tsx:139-146 | one entry gives its truthy URL or nothing |
| EnvironmentPicker.InitialEnvironments | src/Components/EnvironmentPicker/EnvironmentPickerDialog.tsx:126-173 | the stored URLs, then the selected URL when non-empty and not listed; without local storage, the prop alone |
| EnvironmentPicker.SelectedEnvironmentIsListed | src/Components/EnvironmentPicker/EnvironmentPickerDialog.tsx:139-169 | a non-empty selected URL is in the initial list |
| EnvironmentPicker.LoadEnvironments | src/Components/EnvironmentPicker/EnvironmentPickerDialog.tsx:139-169 | the push loop builds the initial list |
| EnvironmentPicker.InitialContainers | src/Components/EnvironmentPicker/EnvironmentPickerDialog.tsx:175-210 | a container prop is the only entry; with local storage, the selection is the prop when not nullish, else the stored selection or ''; the list is the stored one (`?? []`) with the selection appended exactly when it is non-empty and not stored, and otherwise unchanged; without local storage, none |
| EnvironmentPicker.NewInstances | src/Components/EnvironmentPicker/EnvironmentPickerDialog.tsx:222-245 | membership: an instance is appended iff it is in the subscription, valid and not listed by URL or host name |
| EnvironmentPicker.NewInstancesAppend | src/Components/EnvironmentPicker/EnvironmentPickerDialog.tsx:222-245 | order: the new instances distribute over concatenation, so they follow the subscription order |
| EnvironmentPicker.NewInstancesOne | src/Components/EnvironmentPicker/EnvironmentPickerDialog.tsx:222-245 | one instance is appended iff it is valid and not listed |
| EnvironmentPicker.MergeSubscription | src/Components/EnvironmentPicker/EnvironmentPickerDialog.tsx:222-245 | existing entries come first, unchanged, followed by exactly the new instances; every valid instance ends up listed |
| EnvironmentPicker.EnvironmentInput | src/Components/EnvironmentPicker/EnvironmentPickerDialog.tsx:381-393 | 'https://' is prepended iff missing and the value ends with a suffix or suffix + '/' |
| EnvironmentPicker.EndsWithSuffixOrSlash | src/Components/EnvironmentPicker/EnvironmentPickerDialog.tsx:385-389 | true iff the value ends with some suffix or suffix + '/' |
| EnvironmentPicker.HostListed | src/Components/EnvironmentPicker/EnvironmentPickerDialog.tsx:394-404 | no match iff every entry is compared without throwing and differs |
| EnvironmentPicker.InstanceEntryNeverMatchesAsWritten | src/Components/EnvironmentPicker/EnvironmentPickerDialog.tsx:394-404 | as written, 'https://' + host name never equals a bare host name |
| EnvironmentPicker.TypedEnvironment | src/Components/EnvironmentPicker/EnvironmentPickerDialog.tsx:376-408 | the edited value is the prefixed input; the list is kept or gains exactly that entry; invalid input keeps the list; the handler throws iff the input is valid and the host scan throws |
| EnvironmentPicker.TypedUrlDuplicatesInstanceAsWritten | src/Components/EnvironmentPicker/EnvironmentPickerDialog.tsx:394-404 | as written, typing the URL of a listed instance appends a duplicate |
| EnvironmentPicker.TypedEnvironmentIsNew | src/Components/EnvironmentPicker/EnvironmentPickerDialog.tsx:394-404 | for the as-written and the corrected comparison alike, the input is appended iff it is valid and every entry compares false with its host name; corrected, that is: no entry has its host name |
| EnvironmentPicker.ContainerInput | src/Components/EnvironmentPicker/EnvironmentPickerDialog.tsx:410-428 | the value, or the value prefixed with 'https://', which happens iff it lacks the prefix and the prefixed text parses to a host with a container suffix and a path other than '/' |
| EnvironmentPicker.ContainersAfterInput | src/Components/EnvironmentPicker/EnvironmentPickerDialog.tsx:429-437 | the old list is a prefix of the new one, which is at most one longer; a container is listed afterwards iff it was before or it is the valid new value; an already listed or an invalid value changes nothing |
| EnvironmentPicker.ContainersStayDistinct | src/Components/EnvironmentPicker/EnvironmentPickerDialog.tsx:429-437 | a list without duplicates keeps none |
| EnvironmentPicker.WithoutOption | src/Components/EnvironmentPicker/EnvironmentPickerDialog.tsx:345-359 | every entry whose URL is the option text is dropped, the others kept |
| EnvironmentPicker.WithoutOptionAppend | src/Components/EnvironmentPicker/EnvironmentPickerDialog.tsx:345-359 | the kept entries stay in their order: removing from a concatenation removes from each part |
| EnvironmentPicker.WithoutOptionOne | src/Components/EnvironmentPicker/EnvironmentPickerDialog.tsx:345-359 | one entry is kept iff its option text differs from the removed text |
| EnvironmentPicker.WithoutContainer | src/Components/EnvironmentPicker/EnvironmentPickerDialog.tsx:360-368 | every container equal to the option text is dropped, the others kept |
| EnvironmentPicker.WithoutContainerAppend | src/Components/EnvironmentPicker/EnvironmentPickerDialog.tsx:360-368 | the kept containers stay in their order: removing from a concatenation removes from each part |
| EnvironmentPicker.WithoutContainerOne | src/Components/EnvironmentPicker/EnvironmentPickerDialog.tsx:360-368 | one container is kept iff it differs from the removed text |
| EnvironmentPicker.Picker.constructor | src/Components/EnvironmentPicker/EnvironmentPickerDialog.tsx:126-212 | the dialog starts from the given lists and edited values |
| EnvironmentPicker.Picker.OnSubscriptionInstances | src/Components/EnvironmentPicker/EnvironmentPickerDialog.tsx:222-245 | the list becomes the merge; nothing else changes |
| EnvironmentPicker.Picker.OnEnvironmentUrlChange | src/Components/EnvironmentPicker/EnvironmentPickerDialog.tsx:376-408 | a picked option is edited as its instance or text; typed input is edited and appended when valid and no entry matches by the comparison as written; throwing leaves the list |
| EnvironmentPicker.Picker.OnContainerUrlChange | src/Components/EnvironmentPicker/EnvironmentPickerDialog.tsx:410-438 | the prefixed input is edited and appended when valid and new |
| EnvironmentPicker.Picker.RemoveEnvironmentOption | src/Components/EnvironmentPicker/EnvironmentPickerDialog.tsx:345-359 | matching entries dropped; the edited value cleared iff it was that URL |
| EnvironmentPicker.Picker.RemoveContainerOption | src/Components/EnvironmentPicker/EnvironmentPickerDialog.tsx:360-368 | matching containers dropped; the edited container cleared iff it was that URL |
| PropertyEditor.GetProperty | src/Components/OATPropertyEditor/Modal.tsx:44-54 | reading a property throws exactly on null or undefined |
| PropertyEditor.Spread | src/Components/OATPropertyEditor/Modal.tsx:49-51 | an array spreads to its items, a string to its characters; anything else throws |
| PropertyEditor.Chosen | src/Components/OATPropertyEditor/Modal.tsx:44-54 | the typed input when truthy, otherwise the active property's value |
| PropertyEditor.NewType | src/Components/OATPropertyEditor/Modal.tsx:49-51 | a truthy semantic type is appended to the spread of the old '@type'; otherwise '@type' is unchanged; it throws iff the active property is null or undefined, or the semantic type is truthy and the old '@type' cannot be spread |
| PropertyEditor.UpdatedProperty | src/Components/OATPropertyEditor/Modal.tsx:43-55 | the entry has exactly the seven keys in order, writable from the toggle; building it throws iff the active property is null or undefined, or a truthy semantic type meets an old '@type' that cannot be spread |
| PropertyEditor.UpdatedPropertyFields | src/Components/OATPropertyEditor/Modal.tsx:44-54 | each written key takes the typed input when truthy, else the old value; '@type' as NewType |
| PropertyEditor.StringTypeIsSplit | src/Components/OATPropertyEditor/Modal.tsx:49-51 | a plain-string '@type' "ab" becomes ["a", "b", semantic type] |
| PropertyEditor.OtherKeysAreDropped | src/Components/OATPropertyEditor/Modal.tsx:43-57 | keys such as schema are not carried over |
| PropertyEditor.FindByName | src/Components/OATPropertyEditor/Modal.tsx:62-74 | found iff some content's name equals the value exactly; the found one has it |
| PropertyEditor.NameTaken | src/Components/OATPropertyEditor/Modal.tsx:62-74 | the `find` is defined: some content's name is the value |
| PropertyEditor.UnitEnabledIffTypeAppended | src/Components/OATPropertyEditor/Modal.tsx:172 | the unit is editable exactly when a semantic type would be appended |
| PropertyEditor.IsUnitDisabled | src/Components/OATPropertyEditor/Modal.tsx:172 | the unit field is disabled for a null or empty semantic type |
| PropertyEditor.PropertyModal.IsUpdateDisabled | src/Components/OATPropertyEditor/Modal.tsx:190 | the Update button is disabled exactly while the error is set |
| PropertyEditor.PropertyModal.constructor | src/Components/OATPropertyEditor/Modal.tsx:33-40 | every input null, writable true, no error |
| PropertyEditor.PropertyModal.ToggleWritable | src/Components/OATPropertyEditor/Modal.tsx:141-147 | only writable flips |
| PropertyEditor.PropertyModal.GetErrorMessage | src/Components/OATPropertyEditor/Modal.tsx:62-74 | error iff the name is taken; the display name set only when new and non-empty |
| PropertyEditor.PropertyModal.HandleUpdateProperty | src/Components/OATPropertyEditor/Modal.tsx:42-60 | only the entry at the index is replaced, by the new entry, and the modal closes; when building it throws nothing changes |
| FileUploader.Names | src/Components/FileUploader/FileUploader.tsx:30 | the names of the files, in order |
| FileUploader.Admitted | src/Components/FileUploader/FileUploader.tsx:30-35 | membership: a selected file is admitted iff its name is not among the old names |
| FileUploader.AdmittedAppend | src/Components/FileUploader/FileUploader.tsx:30-35 | order: admission distributes over concatenation, so the admitted files keep the selection order |
| FileUploader.AdmittedOne | src/Components/FileUploader/FileUploader.tsx:30-35 | one file is admitted iff its name is new |
| FileUploader.SameNameInOneSelection | src/Components/FileUploader/FileUploader.tsx:30-35 | two new files of the same name in one selection are both kept |
| FileUploader.AppendNew | src/Components/FileUploader/FileUploader.tsx:25-38 | the loop yields the old list followed by the admitted files in selection order |
| FileUploader.SelectionOnlyAppends | src/Components/FileUploader/FileUploader.tsx:28-36 | the old files stay first and in order; every added file was selected and had a new name |
| FileUploader.WithoutIndex | src/Components/FileUploader/FileUploader.tsx:40-42 | an index in range removes exactly that entry; any other index changes nothing |
| FileUploader.Uploader.constructor | src/Components/FileUploader/FileUploader.tsx:7-9 | no files |
| FileUploader.Uploader.HandleOnChangeFiles | src/Components/FileUploader/FileUploader.tsx:25-38 | the list gains the admitted files |
| FileUploader.Uploader.SyncFilesRef | src/Components/FileUploader/FileUploader.tsx:21-23 | the ref catches up with the list |
| FileUploader.Uploader.RemoveFile | src/Components/FileUploader/FileUploader.tsx:40-42 | the list becomes the ref without the entry at the index |

## Left out

- HTTP calls, bearer tokens, the method sandbox and the entity caches: their answers are parameters, and the sandbox is an error list.
- `getUserRolesByResourceId`: it is plain HTTP with no logic.
- `getResources`, `getResourcesByPermissions`, `getMissingRoleDefinitions` and `assignRole`: their code is not part of this model, so they are parameters. The role-difference rule is therefore not modelled.
- `Promise.all`: fan-outs are modelled as sequential maps that keep index alignment. Concurrency is not modelled.
- `applyMixins` prototype composition: this is runtime JavaScript, not logic.
- WHATWG `URL` parsing: an abstract partial function to host name and path name. The valid suffix lists are parameters.
- Deeplink side effects: local storage, telemetry, `window.location` and the `query-string` library. Stored URLs and the parsed query are inputs, and a link is its ordered parameters, not its text.
- Utils: `createGUID`, `createSeededGUID`, `getMarkedHtmlBySearch` and `downloadText` involve randomness, floating point, RegExp and the DOM.
- Utils.GetFileType: the source's default `defaultType = ''` is not modelled; callers pass the default type.
- Utils.GetModelContentUnit: a property without a unit gives `None`, so undefined and null are not told apart.
- PropertyEditor.IsUnitDisabled: the semantic type is `None` for null. The editor never sets it to undefined, so the two are not told apart.
- ManagementAdapter.SubscriptionsInTenant: a missing tenant id is `None` on both sides of the comparison, so a subscription tenant of null and an adapter tenant of undefined, which `===` tells apart, are not distinguished.
- QueryBuilder.Builder.OnChangeProperty: the selected columns are a set, so the insertion order of the source's `Set` is not modelled.
- Utils.GetNumericPart: the final `Number()` conversion is a floating-point operation, so the model gives the exact decimal value instead.
- Utils.ParseViewProperties: `Object.keys` order is taken as given (the keys are an input sequence).
- Utils.HasAllProcessGraphicsCardProperties: the twin argument is an object (`requires twin.Obj?`). A twin that is another kind of JSON value is not modelled.
- The reserved property names (`ADTModel_ImgSrc_PropertyName`, `ADTModel_ImgPropertyPositions_PropertyName`, `ADTModel_ViewData_PropertyName`, `ADTModel_InBIM_RelationshipName`) are defined in a constants file that is not part of this model. They are parameters.
- The role ids 'Storage Blob Data Contributor' and 'Reader' come from an enumeration file that is not part of this model. They are constants holding Azure's published built-in role ids; only their distinctness matters.
- Migration script I/O: files, command-line arguments, console output and JSON parsing and printing. The `crypto.randomBytes` range ids are a parameter.
- Migration: malformed legacy records, such as a missing range array that would throw, are not modelled; the records are typed.
- Migration.MigrateVisuals: the source mutates `visual.widgets` inside the visual object. The model builds the migrated visual as a value, so aliasing of a visual shared between behaviours is not captured.
- Query builder: generated row ids are parameters. The rendered rows and the search request are not modelled.
- Behaviour form: rendering, the form reducer other than the reset payload, the ViewerConfigUtility type test (modelled by the datatype constructor) and the save handler's persistence.
- Environment picker: rendering, the dismiss timer, and saving to local storage on save. Which entries show a delete icon is not modelled.
- Property editor: rendering, i18n and the model-state dispatch after the update. Null entries in the contents are read as values without the name.
- File uploader: rendering and the upload callback.

## Findings

| source | as written | input that shows it | evidently intended | confidence | as-written member | corrected member |
|---|---|---|---|---|---|---|
| src/Adapters/ADT3DSceneAdapter.ts:145-159 | with a container URL argument, the parsed names go to the adapter fields, and the local names the search uses stay undefined | `getMissingStorageContainerAccessRoles("https://acct.blob.core.windows.net/c")` with a matching container among the resources: never found, answered "not in subscription" | the search uses the names parsed from the argument | high, not executed | SceneAdapter.AsWrittenUrlArgumentNeverFinds | SceneAdapter.UrlArgumentFindsContainer |
| src/Components/EnvironmentPicker/EnvironmentPickerDialog.tsx:394-404 | an instance entry is compared as 'https://' + hostName with the typed URL's bare host name, which never matches | list `[instance with hostName "x.api.wus2.digitaltwins.azure.net"]`, typed `"https://x.api.wus2.digitaltwins.azure.net"`: the URL is appended as a duplicate | the instance's host name is compared with the typed host name | high, not executed | EnvironmentPicker.TypedUrlDuplicatesInstanceAsWritten | EnvironmentPicker.TypedEnvironmentIsNew |
