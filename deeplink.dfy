/** The deeplink context: the state shared across sessions through the URL,
    its reducer, the comma-separated array parameters, the provider's
    initial state and the fields a deeplink carries. */
module Deeplink {
  import opened Wrappers
  import opened JsValues
  import opened Strings

  datatype DeeplinkState = DeeplinkState(
    adtUrl: string,
    mode: string,
    sceneId: string,
    selectedElementId: string,
    selectedLayerIds: seq<string>,
    storageUrl: string)

  /** The reducer's actions, with their payloads (`None` is a missing value). */
  datatype Action =
    | SetAdtUrl(url: Option<string>)
    | SetElementId(id: Option<string>)
    | SetLayerIds(ids: Option<seq<string>>)
    | SetMode(mode: string)
    | SetSceneId(sceneId: Option<string>)
    | SetStorageUrl(url: Option<string>)
    | OtherAction

  /** `ids || []`: an array is truthy even when empty. */
  function IdsOrEmpty(ids: Option<seq<string>>): seq<string> {
    if ids.Some? then ids.value else []
  }

  /** `DeeplinkContextReducer`: each action sets its own field, and choosing a
      mode clears the selection. */
  function Reduce(state: DeeplinkState, action: Action): (r: DeeplinkState)
    ensures r.adtUrl != state.adtUrl ==> action.SetAdtUrl?
    ensures r.sceneId != state.sceneId ==> action.SetSceneId?
    ensures r.storageUrl != state.storageUrl ==> action.SetStorageUrl?
    ensures r.mode != state.mode ==> action.SetMode?
    ensures r.selectedElementId != state.selectedElementId ==> action.SetElementId? || action.SetMode?
    ensures r.selectedLayerIds != state.selectedLayerIds ==> action.SetLayerIds? || action.SetMode?
    ensures action.OtherAction? ==> r == state
    ensures action.SetMode? ==> r.mode == action.mode && r.selectedElementId == "" && r.selectedLayerIds == []
    ensures action.SetAdtUrl? ==> r.adtUrl == TextOrEmpty(action.url)
    ensures action.SetElementId? ==> r.selectedElementId == TextOrEmpty(action.id)
    ensures action.SetSceneId? ==> r.sceneId == TextOrEmpty(action.sceneId)
    ensures action.SetStorageUrl? ==> r.storageUrl == TextOrEmpty(action.url)
    ensures action.SetLayerIds? ==> r.selectedLayerIds == IdsOrEmpty(action.ids)
  {
    match action
    case SetAdtUrl(url) => state.(adtUrl := TextOrEmpty(url))
    case SetElementId(id) => state.(selectedElementId := TextOrEmpty(id))
    case SetLayerIds(ids) => state.(selectedLayerIds := IdsOrEmpty(ids))
    case SetMode(mode) => state.(mode := mode, selectedElementId := "", selectedLayerIds := [])
    case SetSceneId(sceneId) => state.(sceneId := TextOrEmpty(sceneId))
    case SetStorageUrl(url) => state.(storageUrl := TextOrEmpty(url))
    case OtherAction => state
  }

  /** Repeating an action changes nothing more. */
  lemma ReduceIsIdempotent(state: DeeplinkState, action: Action)
    ensures Reduce(Reduce(state, action), action) == Reduce(state, action)
  {
  }

  /** The state fields an action may write. */
  datatype Field = AdtUrlField | ModeField | SceneIdField | ElementField | LayersField | StorageUrlField

  function Writes(action: Action): set<Field> {
    match action
    case SetAdtUrl(_) => {AdtUrlField}
    case SetElementId(_) => {ElementField}
    case SetLayerIds(_) => {LayersField}
    case SetMode(_) => {ModeField, ElementField, LayersField}
    case SetSceneId(_) => {SceneIdField}
    case SetStorageUrl(_) => {StorageUrlField}
    case OtherAction => {}
  }

  /** Actions writing different fields can be dispatched in either order. */
  lemma IndependentActionsCommute(state: DeeplinkState, a: Action, b: Action)
    requires forall f :: f in Writes(a) ==> f !in Writes(b)
    ensures Reduce(Reduce(state, a), b) == Reduce(Reduce(state, b), a)
  {
    match a
    case SetAdtUrl(_) => assert AdtUrlField in Writes(a);
    case SetElementId(_) => assert ElementField in Writes(a);
    case SetLayerIds(_) => assert LayersField in Writes(a);
    case SetMode(_) => assert ModeField in Writes(a) && ElementField in Writes(a) && LayersField in Writes(a);
    case SetSceneId(_) => assert SceneIdField in Writes(a);
    case SetStorageUrl(_) => assert StorageUrlField in Writes(a);
    case OtherAction =>
  }

  /** A mode change after a selection wipes it. */
  lemma ModeChangeDiscardsSelection(state: DeeplinkState, id: Option<string>, ids: Option<seq<string>>, mode: string)
    ensures var s := Reduce(Reduce(Reduce(state, SetElementId(id)), SetLayerIds(ids)), SetMode(mode));
      s == Reduce(state, SetMode(mode))
  {
  }

  // ---------------------------------------------------------------------
  // Array parameters

  const ArrayValueSeparator: char := ','

  /** `serializeArrayParam`: '' for a missing or empty array. */
  function SerializeArrayParam(values: Option<seq<string>>): (r: string)
    ensures values.None? || values.value == [] ==> r == ""
  {
    if values.None? || |values.value| == 0 then "" else Join(values.value, [ArrayValueSeparator])
  }

  /** `parseArrayParam`: `undefined` for a missing or empty string. */
  function ParseArrayParam(value: Option<string>): (r: Option<seq<string>>)
    ensures r.Some? <==> TruthyText(value)
    ensures r.Some? ==> |r.value| >= 1
  {
    if !TruthyText(value) then None else Some(Split(value.value, [ArrayValueSeparator]))
  }

  /** Serialising then parsing gives the array back, when it is not empty,
      none of its values holds the separator and the join is not empty. */
  lemma ParseSerialize(xs: seq<string>)
    requires |xs| >= 1
    requires forall i :: 0 <= i < |xs| ==> ArrayValueSeparator !in xs[i]
    requires Join(xs, [ArrayValueSeparator]) != ""
    ensures ParseArrayParam(Some(SerializeArrayParam(Some(xs)))) == Some(xs)
  {
    SplitJoin(xs, ArrayValueSeparator);
  }

  /** Parsing then serialising gives the text back, the missing value
      becoming ''. */
  lemma SerializeParse(value: Option<string>)
    ensures SerializeArrayParam(ParseArrayParam(value)) == TextOrEmpty(value)
  {
    if TruthyText(value) {
      JoinSplit(value.value, [ArrayValueSeparator]);
    }
  }

  /** The round trip fails on a value holding the separator. */
  lemma SeparatorInValueSplits()
    ensures ParseArrayParam(Some(SerializeArrayParam(Some(["a,b"])))) == Some(["a", "b"])
  {
    assert SerializeArrayParam(Some(["a,b"])) == "a,b";
    assert "a,b" == "a" + [ArrayValueSeparator] + "b";
    SplitAfterPiece("a", ArrayValueSeparator, "b");
    SplitWithoutSeparator("b", ArrayValueSeparator);
    assert Split("a,b", [ArrayValueSeparator]) == ["a"] + ["b"] == ["a", "b"];
    assert TruthyText(Some("a,b"));
  }

  // ---------------------------------------------------------------------
  // Deeplinks

  /** `IPublicDeeplink`; its fields are declared in the order of the query
      string parameters. */
  datatype PublicDeeplink = PublicDeeplink(
    sceneId: Option<string>,
    selectedElementIds: Option<string>,
    selectedLayerIds: Option<string>,
    mode: Option<string>,
    adtUrl: Option<string>,
    storageUrl: Option<string>)

  const DeeplinkKeyOrder: seq<string> := ["sceneId", "selectedElementIds", "selectedLayerIds", "mode", "adtUrl", "storageUrl"]

  /** The query string parameters of a deeplink, in order. */
  function QueryParameters(d: PublicDeeplink): (r: seq<(string, Option<string>)>)
    ensures |r| == |DeeplinkKeyOrder|
    ensures forall i :: 0 <= i < |r| ==> r[i].0 == DeeplinkKeyOrder[i]
  {
    [("sceneId", d.sceneId), ("selectedElementIds", d.selectedElementIds), ("selectedLayerIds", d.selectedLayerIds),
     ("mode", d.mode), ("adtUrl", d.adtUrl), ("storageUrl", d.storageUrl)]
  }

  datatype DeeplinkOptions = DeeplinkOptions(includeSelectedElement: bool, includeSelectedLayers: bool, excludeBaseUrl: bool)

  /** What `buildDeeplink` yields: '' without a state; a failure when the
      options are missing (`options.excludeBaseUrl` throws); otherwise the
      parameters, as a bare query string or appended to the page URL. */
  datatype BuiltLink = NoLink | BuildThrows | Link(params: PublicDeeplink, excludeBaseUrl: bool)

  function BuildDeeplink(state: Option<DeeplinkState>, options: Option<DeeplinkOptions>): (r: BuiltLink)
    ensures state.None? <==> r.NoLink?
    ensures r.BuildThrows? <==> state.Some? && options.None?
    ensures r.Link? ==> (r.params.selectedElementIds.Some? <==> options.value.includeSelectedElement)
    ensures r.Link? ==> (r.params.selectedLayerIds.Some? <==> options.value.includeSelectedLayers)
    ensures r.Link? ==>
      (r.params.sceneId == Some(state.value.sceneId) && r.params.mode == Some(state.value.mode)
       && r.params.adtUrl == Some(state.value.adtUrl) && r.params.storageUrl == Some(state.value.storageUrl))
  {
    match state
    case None => NoLink
    case Some(s) =>
      match options
      case None => BuildThrows
      case Some(o) =>
        var d := PublicDeeplink(
          Some(s.sceneId),
          if o.includeSelectedElement then Some(SerializeArrayParam(Some([s.selectedElementId]))) else None,
          if o.includeSelectedLayers then Some(SerializeArrayParam(Some(s.selectedLayerIds))) else None,
          Some(s.mode),
          Some(s.adtUrl),
          Some(s.storageUrl));
        Link(d, o.excludeBaseUrl)
  }

  /** The `initialState` prop of the provider. */
  datatype InitialProps = InitialProps(
    adtUrl: Option<string>,
    mode: Option<string>,
    sceneId: Option<string>,
    selectedElementId: Option<string>,
    selectedLayerIds: Option<seq<string>>,
    storageUrl: Option<string>)

  /** The first element of the parsed element ids, when there is one. */
  function FirstElementId(value: Option<string>): Option<string> {
    match ParseArrayParam(value)
    case None => None
    case Some(ids) => Some(ids[0])
  }

  /** `a || b` for optional arrays: a present array is taken even when empty. */
  function OrIds(a: Option<seq<string>>, b: Option<seq<string>>): Option<seq<string>> {
    if a.Some? then a else b
  }

  /** The provider's default state: the URL parameter, then the initial
      prop, then (for the two URLs) the stored selection, then the default.
      `viewSceneMode` is the value of `ADT3DScenePageModes.ViewScene`.*/
  function InitialState(parsed: PublicDeeplink, initial: InitialProps,
                        storedAdtUrl: Option<string>, storedStorageUrl: Option<string>,
                        viewSceneMode: string): (r: DeeplinkState)
    ensures TruthyText(parsed.adtUrl) ==> r.adtUrl == parsed.adtUrl.value
    ensures !TruthyText(parsed.adtUrl) && TruthyText(initial.adtUrl) ==> r.adtUrl == initial.adtUrl.value
    ensures !TruthyText(parsed.adtUrl) && !TruthyText(initial.adtUrl) ==> r.adtUrl == TextOrEmpty(storedAdtUrl)
    ensures TruthyText(parsed.storageUrl) ==> r.storageUrl == parsed.storageUrl.value
    ensures !TruthyText(parsed.storageUrl) && TruthyText(initial.storageUrl) ==> r.storageUrl == initial.storageUrl.value
    ensures !TruthyText(parsed.storageUrl) && !TruthyText(initial.storageUrl) ==> r.storageUrl == TextOrEmpty(storedStorageUrl)
    ensures r.mode == (if TruthyText(parsed.mode) then parsed.mode.value
                       else if TruthyText(initial.mode) then initial.mode.value else viewSceneMode)
    ensures r.sceneId == TextOrEmpty(OrText(parsed.sceneId, initial.sceneId))
    ensures TruthyText(parsed.selectedLayerIds) ==> r.selectedLayerIds == Split(parsed.selectedLayerIds.value, [ArrayValueSeparator])
    ensures !TruthyText(parsed.selectedLayerIds) ==> r.selectedLayerIds == IdsOrEmpty(initial.selectedLayerIds)
    ensures r.selectedElementId == TextOrEmpty(OrText(FirstElementId(parsed.selectedElementIds), initial.selectedElementId))
  {
    DeeplinkState(
      TextOrEmpty(OrText(OrText(parsed.adtUrl, initial.adtUrl), storedAdtUrl)),
      if TruthyText(parsed.mode) then parsed.mode.value
      else if TruthyText(initial.mode) then initial.mode.value
      else viewSceneMode,
      TextOrEmpty(OrText(parsed.sceneId, initial.sceneId)),
      TextOrEmpty(OrText(FirstElementId(parsed.selectedElementIds), initial.selectedElementId)),
      IdsOrEmpty(OrIds(ParseArrayParam(parsed.selectedLayerIds), initial.selectedLayerIds)),
      TextOrEmpty(OrText(OrText(parsed.storageUrl, initial.storageUrl), storedStorageUrl)))
  }

  /** A state a deeplink can carry without loss: every text is non-empty and
      the selected ids hold no separator. */
  predicate Restorable(s: DeeplinkState) {
    s.adtUrl != "" && s.mode != "" && s.sceneId != "" && s.storageUrl != ""
    && s.selectedElementId != "" && ArrayValueSeparator !in s.selectedElementId
    && |s.selectedLayerIds| >= 1 && Join(s.selectedLayerIds, [ArrayValueSeparator]) != ""
    && forall i :: 0 <= i < |s.selectedLayerIds| ==> ArrayValueSeparator !in s.selectedLayerIds[i]
  }

  /** Opening a deeplink that includes the selection restores the state it
      was built from, whatever the initial prop and storage hold. */
  lemma DeeplinkRestoresState(s: DeeplinkState, excludeBaseUrl: bool, initial: InitialProps,
                              storedAdtUrl: Option<string>, storedStorageUrl: Option<string>, viewSceneMode: string)
    requires Restorable(s)
    ensures var link := BuildDeeplink(Some(s), Some(DeeplinkOptions(true, true, excludeBaseUrl)));
      link.Link? && InitialState(link.params, initial, storedAdtUrl, storedStorageUrl, viewSceneMode) == s
  {
    var link := BuildDeeplink(Some(s), Some(DeeplinkOptions(true, true, excludeBaseUrl)));
    ParseSerialize([s.selectedElementId]);
    ParseSerialize(s.selectedLayerIds);
  }
}
