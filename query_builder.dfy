/** The advanced-search query builder: a list of rows, one per query clause,
    and three maps keyed by row id holding each row's query snippet, chosen
    property name and validity. Search is enabled only while every row
    recorded in the validity map is valid. */
module QueryBuilder {
  import opened JsValues

  /** The most rows the builder allows; Add is disabled when it is reached. */
  const MaxRows := 10

  /** Every recorded row is valid (vacuously so for an empty map). */
  predicate AllValid(validity: map<string, bool>) {
    forall rowId :: rowId in validity ==> validity[rowId]
  }

  /** `checkIsValidQuery`: true for an empty map, otherwise false as soon as
      one entry is false. */
  method CheckIsValidQuery(validity: map<string, bool>) returns (isValid: bool)
    ensures isValid <==> AllValid(validity)
    ensures |validity| == 0 ==> isValid
  {
    if |validity| == 0 {
      return true;
    }
    isValid := true;
    var pending := validity.Keys;
    while pending != {}
      invariant pending <= validity.Keys
      invariant isValid <==> forall rowId :: rowId in validity && rowId !in pending ==> validity[rowId]
      decreases |pending|
    {
      var rowId :| rowId in pending;
      if !validity[rowId] {
        isValid := false;
      }
      pending := pending - {rowId};
    }
  }

  /** `Array.prototype.shift` on a copy: the list without its first entry. */
  function Shift<T>(s: seq<T>): seq<T> {
    if |s| == 0 then s else s[1..]
  }

  /** `splice(index, 1)` on a copy: a negative index counts from the end, an
      index past the end removes nothing. */
  function SpliceOne<T>(s: seq<T>, index: int): (r: seq<T>)
    ensures |r| == if 0 < |s| && index < |s| then |s| - 1 else |s|
  {
    var start := if index < 0 then (if |s| + index < 0 then 0 else |s| + index)
                 else (if index > |s| then |s| else index);
    if start < |s| then s[..start] + s[start + 1..] else s
  }

  /** The rows `removeRow` keeps: `shift` for index 0, `splice` otherwise. */
  function RemainingRows(rows: seq<string>, index: int): seq<string> {
    if index == 0 then Shift(rows) else SpliceOne(rows, index)
  }

  /** Index 0 is special-cased in the source, but `shift` and `splice(0, 1)`
      agree, so removal is `splice` for every index. */
  lemma RemovalIsSplice(rows: seq<string>, index: int)
    ensures RemainingRows(rows, index) == SpliceOne(rows, index)
  {
  }

  /** Removing a rendered row (an index in range) drops exactly that row and
      keeps the others in order. */
  lemma RemovalDropsExactlyOneRow(rows: seq<string>, index: int)
    requires 0 <= index < |rows|
    ensures RemainingRows(rows, index) == rows[..index] + rows[index + 1..]
    ensures |RemainingRows(rows, index)| == |rows| - 1
  {
  }

  /** A freshly appended row is recorded as invalid, so search is disabled
      whatever the other rows hold. */
  lemma NewRowDisablesSearch(validity: map<string, bool>, rowId: string)
    ensures !AllValid(validity[rowId := false])
  {
    assert rowId in validity[rowId := false];
  }

  /** Setting a row valid enables search iff every other recorded row is
      valid. */
  lemma ValidRowLeavesOthersDeciding(validity: map<string, bool>, rowId: string)
    ensures AllValid(validity[rowId := true]) <==>
            forall other :: other in validity && other != rowId ==> validity[other]
  {
    var m := validity[rowId := true];
    forall other | other in validity && other != rowId && AllValid(m)
      ensures validity[other]
    {
      assert other in m && m[other] == validity[other];
    }
    if forall other :: other in validity && other != rowId ==> validity[other] {
      forall other | other in m ensures m[other] {
        if other != rowId {
          assert other in validity;
        }
      }
    }
  }

  /** The state the builder keeps across renders. Row ids are random; the id
      of each new row is given to the operation that creates it. */
  class Builder {
    var querySnippets: map<string, JsValue>
    var validityMap: map<string, bool>
    var propertyNames: map<string, string>
    var isSearchDisabled: bool
    var rows: seq<string>

    /** One initial row, empty maps, search disabled. */
    constructor(firstRowId: string)
      ensures rows == [firstRowId]
      ensures querySnippets == map[] && validityMap == map[] && propertyNames == map[]
      ensures isSearchDisabled
    {
      querySnippets := map[];
      validityMap := map[];
      propertyNames := map[];
      isSearchDisabled := true;
      rows := [firstRowId];
    }

    /** The Add button's `disabled`. */
    predicate IsAddDisabled()
      reads this
    {
      |rows| == MaxRows
    }

    /** Every row's Remove button's `disabled`. */
    predicate IsRemoveDisabled()
      reads this
    {
      |rows| == 1
    }

    /** `removeRow`: drop the row at `index` and everything recorded for
        `rowId`, then recompute whether search is disabled. */
    method RemoveRow(index: int, rowId: string)
      modifies this
      ensures rows == RemainingRows(old(rows), index)
      ensures querySnippets == old(querySnippets) - {rowId}
      ensures propertyNames == old(propertyNames) - {rowId}
      ensures validityMap == old(validityMap) - {rowId}
      ensures isSearchDisabled <==> !AllValid(validityMap)
    {
      var newRows := rows;
      if index == 0 {
        newRows := Shift(newRows);
      } else {
        newRows := SpliceOne(newRows, index);
      }
      rows := newRows;
      querySnippets := querySnippets - {rowId};
      propertyNames := propertyNames - {rowId};
      validityMap := validityMap - {rowId};
      var isValid := CheckIsValidQuery(validityMap);
      isSearchDisabled := !isValid;
    }

    /** `onChangeValue`: the row is valid iff its new value is non-empty. */
    method OnChangeValue(rowId: string, newValue: string)
      modifies this
      ensures validityMap == old(validityMap)[rowId := |newValue| > 0]
      ensures isSearchDisabled <==> !AllValid(validityMap)
      ensures rows == old(rows) && querySnippets == old(querySnippets) && propertyNames == old(propertyNames)
    {
      if |newValue| > 0 {
        validityMap := validityMap[rowId := true];
      } else {
        validityMap := validityMap[rowId := false];
      }
      var isValid := CheckIsValidQuery(validityMap);
      isSearchDisabled := !isValid;
    }

    /** `updateQuerySnippet`. */
    method UpdateQuerySnippet(rowId: string, rowValue: JsValue)
      modifies this
      ensures querySnippets == old(querySnippets)[rowId := rowValue]
      ensures rows == old(rows) && validityMap == old(validityMap) && propertyNames == old(propertyNames)
      ensures isSearchDisabled == old(isSearchDisabled)
    {
      querySnippets := querySnippets[rowId := rowValue];
    }

    /** `onChangeProperty`: record the row's property, report the set of all
        recorded property names as the columns, and make the row valid iff
        the property is not a string (a string has no default value). */
    method OnChangeProperty(rowId: string, propertyName: string, propertyType: string)
      returns (columns: set<string>)
      modifies this
      ensures propertyNames == old(propertyNames)[rowId := propertyName]
      ensures columns == propertyNames.Values
      ensures propertyName in columns
      ensures validityMap == old(validityMap)[rowId := propertyType != "string"]
      ensures isSearchDisabled <==> !AllValid(validityMap)
      ensures rows == old(rows) && querySnippets == old(querySnippets)
    {
      propertyNames := propertyNames[rowId := propertyName];
      columns := propertyNames.Values;
      assert propertyNames[rowId] == propertyName;
      if propertyType != "string" {
        validityMap := validityMap[rowId := true];
      } else {
        validityMap := validityMap[rowId := false];
      }
      var isValid := CheckIsValidQuery(validityMap);
      isSearchDisabled := !isValid;
    }

    /** `appendRow`: one new row at the end, recorded as invalid, so search
        becomes disabled. */
    method AppendRow(newRowId: string)
      modifies this
      ensures rows == old(rows) + [newRowId]
      ensures validityMap == old(validityMap)[newRowId := false]
      ensures isSearchDisabled
      ensures querySnippets == old(querySnippets) && propertyNames == old(propertyNames)
    {
      rows := rows + [newRowId];
      validityMap := validityMap[newRowId := false];
      var isValid := CheckIsValidQuery(validityMap);
      NewRowDisablesSearch(old(validityMap), newRowId);
      isSearchDisabled := !isValid;
    }
  }
}
