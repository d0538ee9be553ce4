/** The scene builder's behaviour form: its tab-validity map, the elements a
    behaviour is bound to, the draft backup kept while a widget form is open,
    and what Cancel does. */
module BehaviorsForm {
  import opened Wrappers
  import opened JsValues

  /** A behaviour's datasource. `ElementMapping` is the element-to-twin
      mapping datasource (`ElementTwinToObjectMappingDataSource`); every other
      datasource type is `OtherDatasource`. */
  datatype Datasource =
    | ElementMapping(elementIds: seq<string>)
    | OtherDatasource(body: JsValue)

  datatype Behavior = Behavior(id: string, datasources: seq<Datasource>, rest: JsValue)

  /** A scene element (`ITwinToObjectMapping`). */
  datatype SceneElement = SceneElement(id: string, rest: JsValue)

  datatype ValidityState = ValidityState(isValid: bool)

  // ---------------------------------------------------------------------
  // Validity map
  // ---------------------------------------------------------------------

  /** `checkValidityMap`: the conjunction of every tab's `isValid`. */
  method CheckValidityMap(validityMap: map<string, ValidityState>) returns (isValid: bool)
    ensures isValid <==> forall tab :: tab in validityMap ==> validityMap[tab].isValid
  {
    isValid := true;
    var pending := validityMap.Keys;
    while pending != {}
      invariant pending <= validityMap.Keys
      invariant isValid <==> forall tab :: tab in validityMap && tab !in pending ==> validityMap[tab].isValid
      decreases |pending|
    {
      var tab :| tab in pending;
      isValid := isValid && validityMap[tab].isValid;
      pending := pending - {tab};
    }
  }

  // ---------------------------------------------------------------------
  // Elements of a behaviour
  // ---------------------------------------------------------------------

  /** `getElementsFromBehavior`: the first element-mapping datasource, or
      None (null) when the behaviour has none. */
  function ElementsFrom(datasources: seq<Datasource>): (r: Option<Datasource>)
    ensures r.None? <==> forall i :: 0 <= i < |datasources| ==> !datasources[i].ElementMapping?
    ensures r.Some? ==> exists i :: 0 <= i < |datasources| && datasources[i] == r.value
                          && r.value.ElementMapping?
                          && forall j :: 0 <= j < i ==> !datasources[j].ElementMapping?
  {
    if datasources == [] then None
    else if datasources[0].ElementMapping? then Some(datasources[0])
    else
      var r := ElementsFrom(datasources[1..]);
      assert r.Some? ==> exists i :: 0 <= i < |datasources[1..]| && datasources[1..][i] == r.value
                          && forall j :: 0 <= j < i ==> !datasources[1..][j].ElementMapping?;
      assert r.Some? ==> exists i :: 1 <= i < |datasources| && datasources[i] == r.value
                          && forall j :: 0 <= j < i ==> !datasources[j].ElementMapping?;
      r
  }

  function GetElementsFromBehavior(behavior: Behavior): (r: Option<Datasource>)
    ensures r.Some? ==> r.value.ElementMapping? && r.value in behavior.datasources
    ensures r.None? <==> forall d :: d in behavior.datasources ==> !d.ElementMapping?
  {
    ElementsFrom(behavior.datasources)
  }

  /** The Elements tab validity `localUpdateSelectedElements` reports: the
      bound count plus one when selecting, minus one otherwise, compared with
      zero. Without an element-mapping datasource the count is undefined, the
      arithmetic gives NaN and the comparison is false. */
  function ElementsValidity(behavior: Behavior, isSelected: bool): (isValid: bool)
    ensures isValid <==> GetElementsFromBehavior(behavior).Some?
                         && (isSelected || |GetElementsFromBehavior(behavior).value.elementIds| >= 2)
  {
    match GetElementsFromBehavior(behavior)
    case None => false
    case Some(ds) =>
      var count := |ds.elementIds|;
      var updated := if isSelected then count + 1 else count - 1;
      updated > 0
  }

  // ---------------------------------------------------------------------
  // Initial selection
  // ---------------------------------------------------------------------

  /** `elements.find`: the first element with the given id. */
  function FindElement(elements: seq<SceneElement>, id: string): (r: Option<SceneElement>)
    ensures r.Some? ==> r.value in elements && r.value.id == id
    ensures r.None? <==> forall k :: 0 <= k < |elements| ==> elements[k].id != id
  {
    if elements == [] then None
    else if elements[0].id == id then Some(elements[0])
    else FindElement(elements[1..], id)
  }

  /** The element returned is the first one carrying the id. */
  lemma {:induction false} FindElementIsFirst(elements: seq<SceneElement>, id: string, k: nat)
    requires k < |elements| && elements[k].id == id
    requires forall j :: 0 <= j < k ==> elements[j].id != id
    ensures FindElement(elements, id) == Some(elements[k])
    decreases k
  {
    if k > 0 {
      FindElementIsFirst(elements[1..], id, k - 1);
    }
  }

  /** The matched elements for a list of ids, in id order, skipping ids that
      match no element. */
  function MatchedElements(ids: seq<string>, elements: seq<SceneElement>): (r: seq<SceneElement>)
    ensures |r| <= |ids| && forall e :: e in r ==> e in elements
    decreases |ids|
  {
    if ids == [] then []
    else
      var found := FindElement(elements, ids[|ids| - 1]);
      MatchedElements(ids[..|ids| - 1], elements) + (if found.Some? then [found.value] else [])
  }

  /** The elements found by the ids of every element-mapping datasource, in
      datasource order and then id order. */
  function InitialSelection(datasources: seq<Datasource>, elements: seq<SceneElement>): (r: seq<SceneElement>)
    ensures forall e :: e in r ==> e in elements
    decreases |datasources|
  {
    if datasources == [] then []
    else
      var last := datasources[|datasources| - 1];
      InitialSelection(datasources[..|datasources| - 1], elements)
        + (if last.ElementMapping? then MatchedElements(last.elementIds, elements) else [])
  }

  /** An element is matched exactly when one of the ids finds it. */
  lemma {:induction false} MatchedElementsSpec(ids: seq<string>, elements: seq<SceneElement>, e: SceneElement)
    ensures e in MatchedElements(ids, elements) <==>
            exists j :: 0 <= j < |ids| && FindElement(elements, ids[j]) == Some(e)
    decreases |ids|
  {
    if ids != [] {
      var front := ids[..|ids| - 1];
      MatchedElementsSpec(front, elements, e);
      if exists j :: 0 <= j < |front| && FindElement(elements, front[j]) == Some(e) {
        var j :| 0 <= j < |front| && FindElement(elements, front[j]) == Some(e);
        assert ids[j] == front[j];
      }
      if exists j :: 0 <= j < |ids| && FindElement(elements, ids[j]) == Some(e) {
        var j :| 0 <= j < |ids| && FindElement(elements, ids[j]) == Some(e);
        if j < |front| {
          assert front[j] == ids[j];
        }
      }
    }
  }

  /** Matching keeps the id order: it distributes over concatenation, and
      one id gives the element it finds, or none. */
  lemma {:induction false} MatchedElementsAppend(a: seq<string>, b: seq<string>, elements: seq<SceneElement>)
    ensures MatchedElements(a + b, elements) == MatchedElements(a, elements) + MatchedElements(b, elements)
    decreases |b|
  {
    if b == [] {
      assert a + b == a;
    } else {
      assert (a + b)[..|a + b| - 1] == a + b[..|b| - 1];
      assert (a + b)[|a + b| - 1] == b[|b| - 1];
      MatchedElementsAppend(a, b[..|b| - 1], elements);
    }
  }

  lemma MatchedElementsOne(id: string, elements: seq<SceneElement>)
    ensures MatchedElements([id], elements) == if FindElement(elements, id).Some? then [FindElement(elements, id).value] else []
  {
    assert [id][..0] == [];
  }

  /** The selection keeps the datasource order: it distributes over
      concatenation, and one datasource contributes its matches when it is
      an element mapping. */
  lemma {:induction false} InitialSelectionAppend(a: seq<Datasource>, b: seq<Datasource>, elements: seq<SceneElement>)
    ensures InitialSelection(a + b, elements) == InitialSelection(a, elements) + InitialSelection(b, elements)
    decreases |b|
  {
    if b == [] {
      assert a + b == a;
    } else {
      assert (a + b)[..|a + b| - 1] == a + b[..|b| - 1];
      assert (a + b)[|a + b| - 1] == b[|b| - 1];
      InitialSelectionAppend(a, b[..|b| - 1], elements);
    }
  }

  lemma InitialSelectionOne(d: Datasource, elements: seq<SceneElement>)
    ensures InitialSelection([d], elements) == if d.ElementMapping? then MatchedElements(d.elementIds, elements) else []
  {
    assert [d][..0] == [];
  }

  /** Datasource `i` is an element mapping whose ids find `e`. */
  predicate SelectedBy(datasources: seq<Datasource>, elements: seq<SceneElement>, e: SceneElement, i: int) {
    0 <= i < |datasources| && datasources[i].ElementMapping?
    && e in MatchedElements(datasources[i].elementIds, elements)
  }

  /** The initial selection holds exactly the elements found by an id of an
      element-mapping datasource. */
  lemma {:induction false} InitialSelectionSpec(datasources: seq<Datasource>, elements: seq<SceneElement>, e: SceneElement)
    ensures e in InitialSelection(datasources, elements) <==> exists i :: SelectedBy(datasources, elements, e, i)
    decreases |datasources|
  {
    if datasources != [] {
      var front := datasources[..|datasources| - 1];
      var last := datasources[|datasources| - 1];
      InitialSelectionSpec(front, elements, e);
      assert InitialSelection(datasources, elements) == InitialSelection(front, elements)
        + (if last.ElementMapping? then MatchedElements(last.elementIds, elements) else []);
      if exists i :: SelectedBy(datasources, elements, e, i) {
        var i :| SelectedBy(datasources, elements, e, i);
        if i < |front| {
          assert datasources[i] == front[i];
          assert SelectedBy(front, elements, e, i);
        }
      }
      if exists i :: SelectedBy(front, elements, e, i) {
        var i :| SelectedBy(front, elements, e, i);
        assert datasources[i] == front[i];
        assert SelectedBy(datasources, elements, e, i);
      }
      assert SelectedBy(datasources, elements, e, |front|) <==>
             last.ElementMapping? && e in MatchedElements(last.elementIds, elements);
    }
  }

  method MatchIds(ids: seq<string>, elements: seq<SceneElement>) returns (matched: seq<SceneElement>)
    ensures matched == MatchedElements(ids, elements)
  {
    matched := [];
    for j := 0 to |ids|
      invariant matched == MatchedElements(ids[..j], elements)
    {
      assert ids[..j + 1][..j] == ids[..j];
      var element := FindElement(elements, ids[j]);
      if element.Some? {
        matched := matched + [element.value];
      }
    }
    assert ids[..|ids|] == ids;
  }

  /** The mount effect: walk the element-mapping datasources and their ids
      in order, collect every element an id finds, and set the selection
      only when something was found. */
  method SelectInitialElements(behaviorToEdit: Behavior, elements: seq<SceneElement>)
    returns (selection: Option<seq<SceneElement>>)
    ensures selection == if InitialSelection(behaviorToEdit.datasources, elements) == [] then None
                         else Some(InitialSelection(behaviorToEdit.datasources, elements))
  {
    var datasources := behaviorToEdit.datasources;
    var selected: seq<SceneElement> := [];
    for i := 0 to |datasources|
      invariant selected == InitialSelection(datasources[..i], elements)
    {
      assert datasources[..i + 1][..i] == datasources[..i];
      if datasources[i].ElementMapping? {
        var matched := MatchIds(datasources[i].elementIds, elements);
        selected := selected + matched;
      }
    }
    assert datasources[..|datasources|] == datasources;
    if |selected| > 0 {
      selection := Some(selected);
    } else {
      selection := None;
    }
  }

  // ---------------------------------------------------------------------
  // Widget draft backup
  // ---------------------------------------------------------------------

  datatype WidgetFormMode = CreateWidget | EditWidget | Cancelled | Committed | OtherMode

  /** The two backup refs: the draft behaviour and its layer ids, null when None. */
  datatype Backup = Backup(behavior: Option<Behavior>, layerIds: Option<seq<string>>)

  /** The payload of the one `FORM_BEHAVIOR_RESET` a cancel dispatches. */
  datatype Reset = Reset(behavior: Option<Behavior>, layerIds: Option<seq<string>>)

  const NoBackup := Backup(None, None)

  /** One run of the backup effect with the current widget-form mode and the
      current draft: the new backup and the reset dispatched, if any. */
  function BackupStep(b: Backup, mode: WidgetFormMode, draft: Behavior, draftLayerIds: seq<string>)
    : (r: (Backup, Option<Reset>))
    ensures (mode == CreateWidget || mode == EditWidget) ==> r.1.None?
    ensures (mode == CreateWidget || mode == EditWidget) ==>
              && r.0.behavior == (if b.behavior.Some? then b.behavior else Some(draft))
              && r.0.layerIds == (if b.layerIds.Some? then b.layerIds else Some(draftLayerIds))
    ensures mode == Committed ==> r == (NoBackup, None)
    ensures mode == Cancelled ==> r.0 == NoBackup
    ensures mode == Cancelled ==>
              (r.1.Some? <==> b != NoBackup) && (r.1.Some? ==> r.1.value == Reset(b.behavior, b.layerIds))
    ensures mode == OtherMode ==> r == (b, None)
  {
    match mode
    case CreateWidget | EditWidget =>
      (Backup(if b.behavior.None? then Some(draft) else b.behavior,
              if b.layerIds.None? then Some(draftLayerIds) else b.layerIds), None)
    case Cancelled =>
      if b.behavior.Some? || b.layerIds.Some? then (NoBackup, Some(Reset(b.behavior, b.layerIds)))
      else (b, None)
    case Committed => (NoBackup, None)
    case OtherMode => (b, None)
  }

  /** A capture into a backup that holds both parts changes nothing: the
      first capture is the one kept. */
  lemma CaptureKeepsFirst(b: Backup, mode: WidgetFormMode, draft: Behavior, draftLayerIds: seq<string>)
    requires mode == CreateWidget || mode == EditWidget
    requires b.behavior.Some? && b.layerIds.Some?
    ensures BackupStep(b, mode, draft, draftLayerIds).0 == b
  {
  }

  /** One effect run per entry of `runs`, each with its mode, draft and
      layer ids; the final backup and all resets dispatched, in order. */
  function RunBackup(b: Backup, runs: seq<(WidgetFormMode, Behavior, seq<string>)>): (Backup, seq<Reset>)
    decreases |runs|
  {
    if runs == [] then (b, [])
    else
      var step := BackupStep(b, runs[0].0, runs[0].1, runs[0].2);
      var rest := RunBackup(step.0, runs[1..]);
      (rest.0, (if step.1.Some? then [step.1.value] else []) + rest.1)
  }

  /** Create and edit runs leave a full backup untouched and dispatch nothing. */
  lemma {:induction false} CapturesKeepBackup(b: Backup, runs: seq<(WidgetFormMode, Behavior, seq<string>)>)
    requires b.behavior.Some? && b.layerIds.Some?
    requires forall k :: 0 <= k < |runs| ==> runs[k].0 == CreateWidget || runs[k].0 == EditWidget
    ensures RunBackup(b, runs) == (b, [])
    decreases |runs|
  {
    if runs != [] {
      var step := BackupStep(b, runs[0].0, runs[0].1, runs[0].2);
      CaptureKeepsFirst(b, runs[0].0, runs[0].1, runs[0].2);
      assert step == (b, None);
      CapturesKeepBackup(b, runs[1..]);
      assert RunBackup(b, runs) == (RunBackup(b, runs[1..]).0, [] + RunBackup(b, runs[1..]).1);
      assert [] + RunBackup(b, runs[1..]).1 == RunBackup(b, runs[1..]).1;
    }
  }

  /** Opening a widget form from an empty backup, editing it any number of
      times and then cancelling dispatches exactly one reset, to the draft
      captured first, and leaves no backup. */
  lemma {:induction false} CancelRestoresFirstCapture(
    opening: WidgetFormMode, draft: Behavior, draftLayerIds: seq<string>,
    edits: seq<(WidgetFormMode, Behavior, seq<string>)>, later: Behavior, laterLayerIds: seq<string>)
    requires opening == CreateWidget || opening == EditWidget
    requires forall k :: 0 <= k < |edits| ==> edits[k].0 == CreateWidget || edits[k].0 == EditWidget
    ensures RunBackup(NoBackup, [(opening, draft, draftLayerIds)] + edits + [(Cancelled, later, laterLayerIds)])
         == (NoBackup, [Reset(Some(draft), Some(draftLayerIds))])
    decreases |edits|
  {
    var captured := Backup(Some(draft), Some(draftLayerIds));
    var runs := [(opening, draft, draftLayerIds)] + edits + [(Cancelled, later, laterLayerIds)];
    assert runs[1..] == edits + [(Cancelled, later, laterLayerIds)];
    assert BackupStep(NoBackup, opening, draft, draftLayerIds) == (captured, None);
    RunAfterCaptures(captured, edits, [(Cancelled, later, laterLayerIds)]);
    var cancel: seq<(WidgetFormMode, Behavior, seq<string>)> := [(Cancelled, later, laterLayerIds)];
    assert BackupStep(captured, Cancelled, later, laterLayerIds) == (NoBackup, Some(Reset(Some(draft), Some(draftLayerIds))));
    assert cancel[1..] == [];
    assert RunBackup(NoBackup, []) == (NoBackup, []);
    assert RunBackup(captured, cancel) == (NoBackup, [Reset(Some(draft), Some(draftLayerIds))] + []);
    assert [Reset(Some(draft), Some(draftLayerIds))] + [] == [Reset(Some(draft), Some(draftLayerIds))];
    assert runs[1..] == edits + cancel;
    assert RunBackup(captured, runs[1..]) == RunBackup(captured, cancel);
    assert RunBackup(NoBackup, runs) == (RunBackup(captured, runs[1..]).0, [] + RunBackup(captured, runs[1..]).1);
    assert [] + RunBackup(captured, runs[1..]).1 == RunBackup(captured, runs[1..]).1;
  }

  /** Captures into a full backup can be skipped. */
  lemma {:induction false} RunAfterCaptures(b: Backup, edits: seq<(WidgetFormMode, Behavior, seq<string>)>,
                                            tail: seq<(WidgetFormMode, Behavior, seq<string>)>)
    requires b.behavior.Some? && b.layerIds.Some?
    requires forall k :: 0 <= k < |edits| ==> edits[k].0 == CreateWidget || edits[k].0 == EditWidget
    ensures RunBackup(b, edits + tail) == RunBackup(b, tail)
    decreases |edits|
  {
    if edits != [] {
      var runs := edits + tail;
      CaptureKeepsFirst(b, edits[0].0, edits[0].1, edits[0].2);
      assert runs[0] == edits[0];
      assert runs[1..] == edits[1..] + tail;
      assert BackupStep(b, runs[0].0, runs[0].1, runs[0].2) == (b, None);
      RunAfterCaptures(b, edits[1..], tail);
      assert RunBackup(b, runs) == (RunBackup(b, runs[1..]).0, [] + RunBackup(b, runs[1..]).1);
      assert [] + RunBackup(b, runs[1..]).1 == RunBackup(b, runs[1..]).1;
    } else {
      assert edits + tail == tail;
    }
  }

  /** A second cancel after a first one dispatches nothing. */
  lemma CancelDispatchesOnce(b: Backup, d1: Behavior, l1: seq<string>, d2: Behavior, l2: seq<string>)
    ensures var first := BackupStep(b, Cancelled, d1, l1);
            BackupStep(first.0, Cancelled, d2, l2).1.None?
  {
  }

  /** The backup refs of one mounted form. */
  class DraftBackup {
    var behaviorDraftWidgetBackup: Option<Behavior>
    var behaviorLayersDraftWidgetBackup: Option<seq<string>>

    constructor()
      ensures behaviorDraftWidgetBackup.None? && behaviorLayersDraftWidgetBackup.None?
    {
      behaviorDraftWidgetBackup := None;
      behaviorLayersDraftWidgetBackup := None;
    }

    function Current(): Backup
      reads this
    {
      Backup(behaviorDraftWidgetBackup, behaviorLayersDraftWidgetBackup)
    }

    /** One run of the effect. */
    method OnWidgetFormChange(mode: WidgetFormMode, behaviorToEdit: Behavior, selectedLayerIds: seq<string>)
      returns (dispatched: Option<Reset>)
      modifies this
      ensures (Current(), dispatched) == BackupStep(old(Current()), mode, behaviorToEdit, selectedLayerIds)
    {
      dispatched := None;
      match mode
      case CreateWidget | EditWidget =>
        if behaviorDraftWidgetBackup.None? {
          behaviorDraftWidgetBackup := Some(behaviorToEdit);
        }
        if behaviorLayersDraftWidgetBackup.None? {
          behaviorLayersDraftWidgetBackup := Some(selectedLayerIds);
        }
      case Cancelled =>
        if behaviorDraftWidgetBackup.Some? || behaviorLayersDraftWidgetBackup.Some? {
          dispatched := Some(Reset(behaviorDraftWidgetBackup, behaviorLayersDraftWidgetBackup));
          behaviorDraftWidgetBackup := None;
          behaviorLayersDraftWidgetBackup := None;
        }
      case Committed =>
        behaviorDraftWidgetBackup := None;
        behaviorLayersDraftWidgetBackup := None;
      case OtherMode =>
    }
  }

  // ---------------------------------------------------------------------
  // Cancel
  // ---------------------------------------------------------------------

  /** What the form asks of its surroundings. */
  datatype Effect =
    | GoBack                                       // onBehaviorBackClick()
    | ClearSelectedElements                        // setSelectedElements([])
    | OpenUnsavedChangesDialog
    | RegisterDiscardAction(action: seq<Effect>)

  /** `discardChanges`. */
  const DiscardChanges: seq<Effect> := [GoBack, ClearSelectedElements]

  /** `onCancelClick`: a dirty form asks first and registers the discard to
      run on confirmation; a clean one discards at once. */
  function OnCancelClick(isDirty: bool): (effects: seq<Effect>)
    ensures isDirty ==> GoBack !in effects && ClearSelectedElements !in effects
    ensures isDirty ==> effects == [OpenUnsavedChangesDialog, RegisterDiscardAction(DiscardChanges)]
    ensures !isDirty ==> effects == DiscardChanges
  {
    if isDirty then [OpenUnsavedChangesDialog, RegisterDiscardAction(DiscardChanges)]
    else DiscardChanges
  }
}
