/** The property editor's modal: the fields typed into it, the duplicate
    name check, and the update that replaces one entry of the model's
    contents in place. */
module PropertyEditor {
  import opened Wrappers
  import opened JsValues
  import Utils

  /** The modal's inputs, each `null` (None) until typed into. */
  datatype PropertyForm = PropertyForm(
    comment: Option<string>,
    description: Option<string>,
    displayName: Option<string>,
    writable: bool,
    semanticType: Option<string>,
    unit: Option<string>,
    id: Option<string>)

  /** `v[key]`: `None` where reading a property of null or undefined throws. */
  function GetProperty(v: JsValue, key: string): (r: Option<JsValue>)
    ensures r.None? <==> v.Null? || v.Undefined?
  {
    if v.Null? || v.Undefined? then None else Some(Utils.OwnProperty(v, key))
  }

  /** `[...v]`: an array's items, a string's characters; `None` where the
      value is not iterable and spreading it throws. */
  function Spread(v: JsValue): (r: Option<seq<JsValue>>)
    ensures v.Arr? ==> r == Some(v.items)
    ensures v.Str? ==> r.Some? && |r.value| == |v.s|
                       && forall k :: 0 <= k < |v.s| ==> r.value[k] == Str([v.s[k]])
    ensures !v.Arr? && !v.Str? ==> r.None?
  {
    match v
    case Arr(items) => Some(items)
    case Str(s) => Some(seq(|s|, (k: int) requires 0 <= k < |s| => Str([s[k]])))
    case _ => None
  }

  /** `x ? x : activeProperty[key]`: the typed input when truthy, otherwise
      the active property's value (which throws on a missing property). */
  function Chosen(input: Option<string>, active: JsValue, key: string): (r: Option<JsValue>)
    ensures TruthyText(input) ==> r == Some(Str(input.value))
    ensures !TruthyText(input) ==> r == GetProperty(active, key)
  {
    if TruthyText(input) then Some(Str(input.value)) else GetProperty(active, key)
  }

  /** The keys of the entry `handleUpdateProperty` writes, in order. */
  const PropertyKeys: seq<string> := ["comment", "description", "name", "writable", "@type", "unit", "@id"]

  /** The `@type` of the new entry: the spread of the old one followed by
      the semantic type when that is truthy, otherwise the old one as is. */
  function NewType(active: JsValue, semanticType: Option<string>): (r: Option<JsValue>)
    ensures TruthyText(semanticType) && r.Some? ==>
              exists previous :: Spread(previous) != None && GetProperty(active, "@type") == Some(previous)
                            && r.value == Arr(Spread(previous).value + [Str(semanticType.value)])
    ensures !TruthyText(semanticType) ==> r == GetProperty(active, "@type")
    ensures r.Some? <==>
              && !active.Null? && !active.Undefined?
              && (TruthyText(semanticType) ==> Spread(GetProperty(active, "@type").value).Some?)
  {
    match GetProperty(active, "@type")
    case None => None
    case Some(t) =>
      if TruthyText(semanticType) then
        match Spread(t)
        case None => None
        case Some(items) => Some(Arr(items + [Str(semanticType.value)]))
      else Some(t)
  }

  /** The `prop` object, or `None` where building it throws. */
  function UpdatedProperty(active: JsValue, form: PropertyForm): (r: Option<JsValue>)
    ensures r.Some? ==> r.value.Obj? && |r.value.fields| == |PropertyKeys|
                        && forall k :: 0 <= k < |PropertyKeys| ==> r.value.fields[k].0 == PropertyKeys[k]
    ensures r.Some? ==> r.value.fields[3].1 == Bool(form.writable)
    ensures active.Null? || active.Undefined? ==> r.None?
    ensures r.Some? <==>
              && !active.Null? && !active.Undefined?
              && (TruthyText(form.semanticType) ==> Spread(GetProperty(active, "@type").value).Some?)
  {
    var comment := Chosen(form.comment, active, "comment");
    var description := Chosen(form.description, active, "description");
    var name := Chosen(form.displayName, active, "name");
    var type_ := NewType(active, form.semanticType);
    var unit := Chosen(form.unit, active, "unit");
    var id := Chosen(form.id, active, "@id");
    if comment.None? || description.None? || name.None? || type_.None? || unit.None? || id.None? then None
    else Some(Obj([("comment", comment.value), ("description", description.value), ("name", name.value),
                   ("writable", Bool(form.writable)), ("@type", type_.value), ("unit", unit.value),
                   ("@id", id.value)]))
  }

  /** Every written key takes the typed input when truthy and the old value
      otherwise; `@type` gains the semantic type at its end. */
  lemma UpdatedPropertyFields(active: JsValue, form: PropertyForm)
    requires UpdatedProperty(active, form).Some?
    ensures var f := UpdatedProperty(active, form).value.fields;
      && Some(f[0].1) == Chosen(form.comment, active, "comment")
      && Some(f[1].1) == Chosen(form.description, active, "description")
      && Some(f[2].1) == Chosen(form.displayName, active, "name")
      && Some(f[4].1) == NewType(active, form.semanticType)
      && Some(f[5].1) == Chosen(form.unit, active, "unit")
      && Some(f[6].1) == Chosen(form.id, active, "@id")
  {
  }

  /** A plain-string `@type` is split into characters by the spread. */
  lemma StringTypeIsSplit()
    ensures NewType(Obj([("@type", Str("ab"))]), Some("Unit"))
         == Some(Arr([Str("a"), Str("b"), Str("Unit")]))
  {
    var items := Spread(Str("ab")).value;
    assert items == [Str("a"), Str("b")];
    assert items + [Str("Unit")] == [Str("a"), Str("b"), Str("Unit")];
  }

  /** Keys of the old entry other than the seven, such as `schema`, are
      not carried over. */
  lemma OtherKeysAreDropped(active: JsValue, form: PropertyForm)
    requires UpdatedProperty(active, form).Some?
    ensures forall k :: 0 <= k < |UpdatedProperty(active, form).value.fields| ==>
              UpdatedProperty(active, form).value.fields[k].0 != "schema"
  {
  }

  /** `model.contents.find(item => item.name === value)` is defined. */
  predicate NameTaken(contents: seq<JsValue>, value: string) {
    exists k :: 0 <= k < |contents| && Utils.OwnProperty(contents[k], "name") == Str(value)
  }

  /** `model.contents.find(item => item.name === value)`: the first entry
      named `value`. */
  function FindByName(contents: seq<JsValue>, value: string): (r: Option<JsValue>)
    ensures r.Some? <==> NameTaken(contents, value)
    ensures r.Some? ==> r.value in contents && Utils.OwnProperty(r.value, "name") == Str(value)
  {
    if contents == [] then None
    else if Utils.OwnProperty(contents[0], "name") == Str(value) then Some(contents[0])
    else
      var r := FindByName(contents[1..], value);
      assert NameTaken(contents[1..], value) ==> NameTaken(contents, value);
      assert NameTaken(contents, value) && Utils.OwnProperty(contents[0], "name") != Str(value)
             ==> NameTaken(contents[1..], value);
      r
  }

  /** Whether the unit field is disabled: an unset or empty semantic type. */
  predicate IsUnitDisabled(semanticType: Option<string>) {
    semanticType == None || semanticType == Some("")
  }

  /** The unit can be edited exactly when the semantic type is appended to
      `@type`. */
  lemma UnitEnabledIffTypeAppended(semanticType: Option<string>)
    ensures !IsUnitDisabled(semanticType) <==> TruthyText(semanticType)
  {
  }

  /** The modal's React state. */
  class PropertyModal {
    var form: PropertyForm
    var error: bool
    var modalOpen: bool

    /** Every input null, `writable` true, no error. */
    constructor(modalOpen: bool)
      ensures form == PropertyForm(None, None, None, true, None, None, None)
      ensures !error && this.modalOpen == modalOpen
    {
      form := PropertyForm(None, None, None, true, None, None, None);
      error := false;
      this.modalOpen := modalOpen;
    }

    /** The Update button's `disabled`. */
    predicate IsUpdateDisabled()
      reads this
    {
      error
    }

    /** The writable toggle. */
    method ToggleWritable()
      modifies this
      ensures form == old(form).(writable := !old(form).writable)
      ensures error == old(error) && modalOpen == old(modalOpen)
    {
      form := form.(writable := !form.writable);
    }

    /** `getErrorMessage` for the display-name field: a repeated name sets
        the error and returns the repeated-name message; otherwise a
        non-empty value becomes the display name. */
    method GetErrorMessage(contents: seq<JsValue>, value: string, repeatedNameMessage: string)
      returns (message: string)
      modifies this
      ensures error <==> NameTaken(contents, value)
      ensures message == if NameTaken(contents, value) then repeatedNameMessage else ""
      ensures form == if !NameTaken(contents, value) && value != "" then old(form).(displayName := Some(value))
                      else old(form)
      ensures modalOpen == old(modalOpen)
    {
      var found := FindByName(contents, value).Some?;
      if !found && value != "" {
        form := form.(displayName := Some(value));
      }
      error := found;
      message := if found then repeatedNameMessage else "";
    }

    /** `handleUpdateProperty`: replace `contents[currentPropertyIndex]`, in
        the contents array the model copy shares with the model, by the new
        entry, and close the modal. An index with no entry reads undefined,
        so building the entry throws and nothing changes. */
    method HandleUpdateProperty(contents: array<JsValue>, currentPropertyIndex: int) returns (updated: bool)
      modifies contents, this
      ensures var active := if 0 <= currentPropertyIndex < contents.Length then old(contents[currentPropertyIndex])
                            else Undefined;
              var prop := UpdatedProperty(active, old(form));
              && (updated <==> prop.Some?)
              && (updated ==> contents[..] == old(contents[..])[currentPropertyIndex := prop.value])
              && (!updated ==> contents[..] == old(contents[..]))
              && modalOpen == (if updated then false else old(modalOpen))
      ensures form == old(form) && error == old(error)
    {
      var active := if 0 <= currentPropertyIndex < contents.Length then contents[currentPropertyIndex] else Undefined;
      var prop := UpdatedProperty(active, form);
      if prop.None? {
        return false;
      }
      assert 0 <= currentPropertyIndex < contents.Length;
      contents[currentPropertyIndex] := prop.value;
      modalOpen := false;
      updated := true;
    }
  }
}
