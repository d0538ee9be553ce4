/** The pure helpers of `Utils.ts`. The reserved property and relationship
    names they compare with are parameters. */
module Utils {
  import opened Wrappers
  import opened JsValues
  import opened Strings

  // ---------------------------------------------------------------------
  // getFileType

  /** The extension of a file name: its last `.`-separated piece when it has
      at least two, otherwise the default. */
  function GetFileType(fileName: string, defaultType: string): (r: string)
    ensures '.' in fileName ==> '.' !in r && EndsWith(fileName, "." + r)
    ensures '.' !in fileName ==> r == defaultType
  {
    SplitHasPieces(fileName, '.');
    LastPieceOf(fileName, '.');
    var segments := Split(fileName, ".");
    if |segments| > 1 then segments[|segments| - 1] else defaultType
  }

  /** Only the text after the last dot is the type. */
  lemma FileTypeOfDottedName()
    ensures GetFileType("a.b.c", "x") == "c"
  {
    assert "a.b.c" == "a" + ['.'] + "b.c";
    LastPieceAfterSeparator("a", '.', "b.c");
    assert "b.c" == "b" + ['.'] + "c";
    LastPieceAfterSeparator("b", '.', "c");
    SplitWithoutSeparator("c", '.');
  }

  /** A trailing dot gives the empty type, not the default. */
  lemma FileTypeOfTrailingDot()
    ensures GetFileType("a.", "x") == ""
  {
    assert "a." == "a" + ['.'] + "";
    LastPieceAfterSeparator("a", '.', "");
  }

  /** A name without a dot takes the default. */
  lemma FileTypeWithoutDot()
    ensures GetFileType("readme", "x") == "x"
  {
    assert '.' !in "readme";
  }

  // ---------------------------------------------------------------------
  // getNumericPart

  predicate IsDigit(c: char) { '0' <= c <= '9' }

  predicate AllDigits(d: string) {
    forall i :: 0 <= i < |d| ==> IsDigit(d[i])
  }

  /** Text of the form `\d+(\.\d+)?`. */
  ghost predicate IsUnsignedDecimal(b: string) {
    (|b| > 0 && AllDigits(b))
    || exists k :: 0 < k < |b| - 1 && AllDigits(b[..k]) && b[k] == '.' && AllDigits(b[k + 1..])
  }

  /** Text of the form `-?\d+(\.\d+)?`. */
  ghost predicate IsDecimal(p: string) {
    IsUnsignedDecimal(p) || (|p| > 0 && p[0] == '-' && IsUnsignedDecimal(p[1..]))
  }

  /** The number of consecutive digits of `s` from index `i`. */
  function DigitRun(s: string, i: nat): (r: nat)
    requires i <= |s|
    ensures i + r <= |s|
    ensures forall j :: i <= j < i + r ==> IsDigit(s[j])
    ensures i + r < |s| ==> !IsDigit(s[i + r])
    decreases |s| - i
  {
    if i < |s| && IsDigit(s[i]) then 1 + DigitRun(s, i + 1) else 0
  }

  lemma {:induction false} DigitRunIsMaximal(s: string, i: nat, j: nat)
    requires i <= j <= |s|
    requires forall t :: i <= t < j ==> IsDigit(s[t])
    ensures j - i <= DigitRun(s, i)
    decreases j - i
  {
    if i < j {
      DigitRunIsMaximal(s, i + 1, j);
    }
  }

  /** The length of the prefix the regular expression `^(-?\d+(\.\d+)?)`
      captures, or 0 when it does not match. */
  function NumericPrefixLength(s: string): nat {
    var sign := if |s| > 0 && s[0] == '-' then 1 else 0;
    var whole := DigitRun(s, sign);
    if whole == 0 then 0
    else
      var point := sign + whole;
      if point < |s| && s[point] == '.' && DigitRun(s, point + 1) > 0 then point + 1 + DigitRun(s, point + 1)
      else point
  }

  lemma NumericPrefixLengthBounded(s: string)
    ensures NumericPrefixLength(s) <= |s|
  {
  }

  /** What the prefix captures is a decimal. */
  lemma NumericPrefixIsDecimal(s: string)
    requires NumericPrefixLength(s) > 0
    ensures IsDecimal(s[..NumericPrefixLength(s)])
  {
    var n := NumericPrefixLength(s);
    var p := s[..n];
    var sign := if |s| > 0 && s[0] == '-' then 1 else 0;
    var whole := DigitRun(s, sign);
    var b := p[sign..];
    assert b == s[sign..n];
    assert AllDigits(b[..whole]) by {
      forall i | 0 <= i < whole ensures IsDigit(b[..whole][i]) {
        assert b[..whole][i] == s[sign + i];
      }
    }
    if n == sign + whole {
      assert b[..whole] == b;
    } else {
      var frac := DigitRun(s, sign + whole + 1);
      assert b[whole] == '.';
      assert b[whole + 1..] == s[sign + whole + 1..n];
      assert AllDigits(s[sign + whole + 1..n]) by {
        forall t | sign + whole + 1 <= t < n ensures IsDigit(s[t]) {
        }
      }
      assert 0 < whole < |b| - 1;
    }
    assert IsUnsignedDecimal(b);
    if sign == 1 {
      assert p[0] == '-';
      assert p[1..] == b;
    } else {
      assert p == b;
    }
  }

  function SignLength(s: string): nat {
    if |s| > 0 && s[0] == '-' then 1 else 0
  }

  lemma UnsignedStartsWithDigit(b: string)
    ensures IsUnsignedDecimal(b) ==> |b| > 0 && IsDigit(b[0])
  {
    if exists k :: 0 < k < |b| - 1 && AllDigits(b[..k]) && b[k] == '.' && AllDigits(b[k + 1..]) {
      var k :| 0 < k < |b| - 1 && AllDigits(b[..k]) && b[k] == '.' && AllDigits(b[k + 1..]);
      assert b[..k][0] == b[0];
    }
  }

  /** A decimal prefix is the sign, if any, followed by an unsigned decimal. */
  lemma DecimalPrefixBody(s: string, m: nat)
    requires m <= |s| && IsDecimal(s[..m])
    ensures SignLength(s) <= m && IsUnsignedDecimal(s[SignLength(s)..m])
  {
    var p := s[..m];
    if SignLength(s) == 1 {
      assert p[0] == '-';
      UnsignedStartsWithDigit(p);
      assert p[1..] == s[1..m];
    } else {
      assert p == s[0..m];
    }
  }

  /** A run of digits found at index `i` of `s`. */
  lemma DigitsAt(s: string, i: nat, d: string)
    requires i + |d| <= |s| && d == s[i..i + |d|] && AllDigits(d)
    ensures forall t :: i <= t < i + |d| ==> IsDigit(s[t])
  {
    forall t | i <= t < i + |d| ensures IsDigit(s[t]) {
      assert s[t] == d[t - i];
    }
  }

  /** An all-digit body is no longer than the digit run. */
  lemma IntegerPrefixIsCaptured(s: string, m: nat)
    requires SignLength(s) < m <= |s|
    requires AllDigits(s[SignLength(s)..m])
    ensures m <= NumericPrefixLength(s)
  {
    var sign := SignLength(s);
    DigitsAt(s, sign, s[sign..m]);
    DigitRunIsMaximal(s, sign, m);
  }

  /** A body with a fraction has the digit run as its whole part, and its
      fraction is no longer than the run after the point. */
  lemma FractionPrefixIsCaptured(s: string, m: nat, k: nat)
    requires SignLength(s) + k + 1 < m <= |s| && 0 < k
    requires forall t :: SignLength(s) <= t < SignLength(s) + k ==> IsDigit(s[t])
    requires s[SignLength(s) + k] == '.'
    requires forall t :: SignLength(s) + k + 1 <= t < m ==> IsDigit(s[t])
    ensures m <= NumericPrefixLength(s)
  {
    var sign := SignLength(s);
    DigitRunIsMaximal(s, sign, sign + k);
    var point := sign + DigitRun(s, sign);
    assert point == sign + k;
    DigitRunIsMaximal(s, point + 1, m);
  }

  /** A body `digits.digits` is no longer than what the expression captures. */
  lemma FractionBodyIsCaptured(s: string, m: nat, k: nat)
    requires SignLength(s) <= m <= |s|
    requires var b := s[SignLength(s)..m];
      0 < k < |b| - 1 && AllDigits(b[..k]) && b[k] == '.' && AllDigits(b[k + 1..])
    ensures m <= NumericPrefixLength(s)
  {
    var sign := SignLength(s);
    var b := s[sign..m];
    assert b[..k] == s[sign..sign + k];
    DigitsAt(s, sign, b[..k]);
    assert b[k + 1..] == s[sign + k + 1..m];
    DigitsAt(s, sign + k + 1, b[k + 1..]);
    FractionPrefixIsCaptured(s, m, k);
  }

  /** No decimal prefix is longer than what the expression captures. */
  lemma DecimalPrefixIsCaptured(s: string, m: nat)
    requires m <= |s| && IsDecimal(s[..m])
    ensures 0 < m <= NumericPrefixLength(s)
  {
    DecimalPrefixBody(s, m);
    var sign := SignLength(s);
    var b := s[sign..m];
    if |b| > 0 && AllDigits(b) {
      IntegerPrefixIsCaptured(s, m);
    } else {
      var k :| 0 < k < |b| - 1 && AllDigits(b[..k]) && b[k] == '.' && AllDigits(b[k + 1..]);
      FractionBodyIsCaptured(s, m, k);
    }
  }

  /** The value of a run of decimal digits. */
  function DigitsValue(d: string): nat
    requires AllDigits(d)
    decreases |d|
  {
    if |d| == 0 then 0
    else 10 * DigitsValue(d[..|d| - 1]) + ((d[|d| - 1] as int) - ('0' as int))
  }

  function Pow10(n: nat): (r: nat)
    ensures r > 0
  {
    if n == 0 then 1 else 10 * Pow10(n - 1)
  }

  /** The exact value of the captured prefix. */
  function PrefixValue(s: string): real
    requires NumericPrefixLength(s) > 0
  {
    var negative := |s| > 0 && s[0] == '-';
    var sign := if negative then 1 else 0;
    var whole := DigitRun(s, sign);
    var n := NumericPrefixLength(s);
    var intPart := s[sign..sign + whole];
    var fracPart := if n > sign + whole then s[sign + whole + 1..n] else "";
    assert AllDigits(intPart) by {
      forall i | 0 <= i < |intPart| ensures IsDigit(intPart[i]) { assert intPart[i] == s[sign + i]; }
    }
    assert AllDigits(fracPart) by {
      forall i | 0 <= i < |fracPart| ensures IsDigit(fracPart[i]) { assert fracPart[i] == s[sign + whole + 1 + i]; }
    }
    var magnitude := DigitsValue(intPart) as real + (DigitsValue(fracPart) as real) / (Pow10(|fracPart|) as real);
    if negative then -magnitude else magnitude
  }

  predicate IsLineTerminator(c: char) {
    c == '\n' || c == '\r' || c == '\U{2028}' || c == '\U{2029}'
  }

  /** The characters `Number()` trims from both ends of its argument. */
  predicate IsWhiteSpace(c: char) {
    c == '\t' || c == '\U{000B}' || c == '\U{000C}' || c == ' ' || c == '\U{00A0}' || c == '\U{FEFF}'
    || c == '\U{1680}' || ('\U{2000}' <= c <= '\U{200A}') || c == '\U{202F}' || c == '\U{205F}' || c == '\U{3000}'
    || IsLineTerminator(c)
  }

  /** The index of the first line terminator from `i` on, or the length:
      where the expression's `.*` stops. */
  function LineEnd(s: string, i: nat): (r: nat)
    requires i <= |s|
    ensures i <= r <= |s|
    ensures forall j :: i <= j < r ==> !IsLineTerminator(s[j])
    ensures r < |s| ==> IsLineTerminator(s[r])
    decreases |s| - i
  {
    if i == |s| || IsLineTerminator(s[i]) then i else LineEnd(s, i + 1)
  }

  /** `getNumericPart`: the value of the captured prefix, or `undefined`
      (`None`) when the input does not start with a number, or when what is
      left after the replacement, the prefix followed by the text from the
      first line terminator on, is not a number. */
  function GetNumericPart(value: string): (r: Option<real>)
    ensures r.Some? ==> NumericPrefixLength(value) > 0 && r.value == PrefixValue(value)
    ensures NumericPrefixLength(value) == 0 ==> r.None?
  {
    var n := NumericPrefixLength(value);
    if n == 0 then None
    else
      var rest := value[LineEnd(value, n)..];
      if forall i :: 0 <= i < |rest| ==> IsWhiteSpace(rest[i]) then Some(PrefixValue(value)) else None
  }

  /** On a single line, the result is the value of the longest decimal prefix. */
  lemma NumericPartIsLongestPrefix(value: string, m: nat)
    requires forall i :: 0 <= i < |value| ==> !IsLineTerminator(value[i])
    requires m <= |value| && IsDecimal(value[..m])
    ensures 0 < m <= NumericPrefixLength(value)
    ensures NumericPrefixLength(value) > 0 && GetNumericPart(value) == Some(PrefixValue(value))
    ensures IsDecimal(value[..NumericPrefixLength(value)])
  {
    DecimalPrefixIsCaptured(value, m);
    NumericPrefixIsDecimal(value);
    NumericPrefixLengthBounded(value);
  }

  /** Without a decimal prefix the result is `undefined`. */
  lemma NoDecimalPrefixIsUndefined(value: string)
    ensures (forall m :: 0 <= m <= |value| ==> !IsDecimal(value[..m])) ==> GetNumericPart(value) == None
  {
    if NumericPrefixLength(value) > 0 {
      NumericPrefixIsDecimal(value);
      NumericPrefixLengthBounded(value);
    }
  }

  lemma PrefixOfTwoPoints()
    ensures NumericPrefixLength("1.5.3") == 3
  {
    var a := "1.5.3";
    assert DigitRun(a, 3) == 0;
    assert DigitRun(a, 2) == 1;
    assert DigitRun(a, 1) == 0;
    assert DigitRun(a, 0) == 1;
  }

  lemma PrefixValueOfTwoPoints()
    requires NumericPrefixLength("1.5.3") == 3
    ensures PrefixValue("1.5.3") == 1.5
  {
    var a := "1.5.3";
    assert DigitRun(a, 1) == 0;
    assert DigitRun(a, 0) == 1;
    assert a[0..1] == "1" && a[2..3] == "5";
    assert "1"[..0] == "" && "5"[..0] == "";
    assert DigitsValue("1") == 1 && DigitsValue("5") == 5;
  }

  lemma NumericPartStopsAtSecondPoint()
    ensures GetNumericPart("1.5.3") == Some(1.5)
  {
    var a := "1.5.3";
    PrefixOfTwoPoints();
    PrefixValueOfTwoPoints();
    assert LineEnd(a, 3) == 5;
  }

  lemma NumericPartDropsBarePoint()
    ensures GetNumericPart("1.") == Some(1.0)
  {
    var b := "1.";
    assert DigitRun(b, 2) == 0;
    assert DigitRun(b, 1) == 0;
    assert DigitRun(b, 0) == 1;
    assert NumericPrefixLength(b) == 1;
    assert LineEnd(b, 1) == 2;
    assert b[0..1] == "1" && "1"[..0] == "";
  }

  lemma NumericPartDropsSuffix()
    ensures GetNumericPart("-12px") == Some(-12.0)
  {
    var c := "-12px";
    assert DigitRun(c, 3) == 0;
    assert DigitRun(c, 2) == 1;
    assert DigitRun(c, 1) == 2;
    assert NumericPrefixLength(c) == 3;
    assert LineEnd(c, 3) == 5;
    assert c[1..3] == "12" && "12"[..1] == "1" && "1"[..0] == "";
  }

  lemma NumericPartUndefinedExamples()
    ensures GetNumericPart("abc") == None
    ensures GetNumericPart(".5") == None
    ensures GetNumericPart("-") == None
  {
    assert DigitRun("abc", 0) == 0;
    assert DigitRun(".5", 0) == 0;
    assert DigitRun("-", 1) == 0;
  }

  lemma NumericPartStopsAtLineEnd()
    ensures GetNumericPart("7\nx") == None
  {
    var d := "7\nx";
    assert DigitRun(d, 1) == 0;
    assert DigitRun(d, 0) == 1;
    assert NumericPrefixLength(d) == 1;
    assert LineEnd(d, 1) == 1;
    assert d[1..][1] == 'x';
  }

  // ---------------------------------------------------------------------
  // parseViewProperties

  /** A key names a view property unless it is a metadata key (`$…`) or one
      of the two reserved image properties. */
  predicate IsViewProperty(key: string, imgSrcName: string, imgPositionsName: string) {
    !StartsWith(key, "$") && key != imgSrcName && key != imgPositionsName
  }

  /** `parseViewProperties` over the object's keys, in `Object.keys` order. */
  function ParseViewProperties(keys: seq<string>, imgSrcName: string, imgPositionsName: string): (r: seq<string>)
    ensures |r| <= |keys|
    ensures forall k :: k in r <==> k in keys && IsViewProperty(k, imgSrcName, imgPositionsName)
    decreases |keys|
  {
    if |keys| == 0 then []
    else
      (if IsViewProperty(keys[0], imgSrcName, imgPositionsName) then [keys[0]] else [])
        + ParseViewProperties(keys[1..], imgSrcName, imgPositionsName)
  }

  /** The filter keeps relative order: it distributes over concatenation. */
  lemma {:induction false} ParseViewPropertiesAppend(xs: seq<string>, ys: seq<string>, imgSrcName: string, imgPositionsName: string)
    ensures ParseViewProperties(xs + ys, imgSrcName, imgPositionsName)
         == ParseViewProperties(xs, imgSrcName, imgPositionsName) + ParseViewProperties(ys, imgSrcName, imgPositionsName)
    decreases |xs|
  {
    if |xs| == 0 {
      assert xs + ys == ys;
    } else {
      assert (xs + ys)[1..] == xs[1..] + ys;
      ParseViewPropertiesAppend(xs[1..], ys, imgSrcName, imgPositionsName);
    }
  }

  /** Keys that are all view properties are kept as they are. */
  lemma {:induction false} ParseViewPropertiesKeepsAll(keys: seq<string>, imgSrcName: string, imgPositionsName: string)
    requires forall i :: 0 <= i < |keys| ==> IsViewProperty(keys[i], imgSrcName, imgPositionsName)
    ensures ParseViewProperties(keys, imgSrcName, imgPositionsName) == keys
    decreases |keys|
  {
    if |keys| > 0 {
      ParseViewPropertiesKeepsAll(keys[1..], imgSrcName, imgPositionsName);
      assert [keys[0]] + keys[1..] == keys;
    }
  }

  // ---------------------------------------------------------------------
  // getModelContentType, getModelContentUnit

  /** A DTDL `@type`: one name or an array of names. */
  datatype ContentType = TypeName(name: string) | TypeNames(names: seq<string>)

  /** `getModelContentType`; `None` is the `undefined` of an empty array. */
  function GetModelContentType(t: ContentType): (r: Option<string>)
    ensures t.TypeName? ==> r == Some(t.name)
    ensures t.TypeNames? ==> (r.Some? <==> |t.names| > 0)
    ensures t.TypeNames? && |t.names| > 0 ==> r == Some(t.names[0])
  {
    match t
    case TypeName(name) => Some(name)
    case TypeNames(names) => if |names| > 0 then Some(names[0]) else None
  }

  datatype DtdlProperty = DtdlProperty(unit: Option<string>)

  /** A semantic type: an array `@type` with a truthy second name. */
  predicate HasSemanticType(t: ContentType) {
    t.TypeNames? && |t.names| > 1 && t.names[1] != ""
  }

  /** `getModelContentUnit`: the property's unit for a semantic type, and no
      unit otherwise. */
  function GetModelContentUnit(t: ContentType, property: Option<DtdlProperty>): (r: Option<string>)
    ensures !HasSemanticType(t) ==> r.None?
    ensures HasSemanticType(t) && property.Some? ==> r == property.value.unit
    ensures property.None? ==> r.None?
  {
    if HasSemanticType(t) && property.Some? then property.value.unit else None
  }

  // ---------------------------------------------------------------------
  // createDTDLModelId

  const ModelIdPrefix: string := "dtmi:assetGen:"
  const ModelIdSuffix: string := ";1"

  function CreateDTDLModelId(name: string): (r: string)
    ensures StartsWith(r, ModelIdPrefix) && EndsWith(r, ModelIdSuffix)
    ensures |r| == |name| + |ModelIdPrefix| + |ModelIdSuffix|
  {
    var r := ModelIdPrefix + name + ModelIdSuffix;
    assert r[..|ModelIdPrefix|] == ModelIdPrefix;
    assert r[|r| - |ModelIdSuffix|..] == ModelIdSuffix;
    r
  }

  /** The name an asset-generated model id was created from. */
  function ModelNameFromId(id: string): Option<string> {
    if |id| >= |ModelIdPrefix| + |ModelIdSuffix| && StartsWith(id, ModelIdPrefix) && EndsWith(id, ModelIdSuffix)
    then Some(id[|ModelIdPrefix|..|id| - |ModelIdSuffix|])
    else None
  }

  lemma ModelIdRoundTrip(name: string)
    ensures ModelNameFromId(CreateDTDLModelId(name)) == Some(name)
  {
    var id := CreateDTDLModelId(name);
    assert id[|ModelIdPrefix|..|id| - |ModelIdSuffix|] == name;
  }

  lemma ModelIdFromName(id: string)
    requires ModelNameFromId(id).Some?
    ensures CreateDTDLModelId(ModelNameFromId(id).value) == id
  {
    var name := ModelNameFromId(id).value;
    assert ModelIdPrefix + name + ModelIdSuffix == id[..|ModelIdPrefix|] + id[|ModelIdPrefix|..|id| - |ModelIdSuffix|] + id[|id| - |ModelIdSuffix|..];
    assert id == id[..|ModelIdPrefix|] + id[|ModelIdPrefix|..|id| - |ModelIdSuffix|] + id[|id| - |ModelIdSuffix|..];
  }

  // ---------------------------------------------------------------------
  // createNodeFilterFromRootForBIM

  /** One entry of a model's `contents`; `contentType` is `None` unless
      `@type` is a plain string. */
  datatype ModelContent = ModelContent(contentType: Option<string>, name: Option<string>, target: Option<string>)

  /** A node of the BIM tree: the `nodeData.model.contents` it carries
      (`None` when any link of that chain is missing) and the rest of it. */
  datatype BimNode = BimNode(modelContents: Option<seq<ModelContent>>, rest: JsValue)

  predicate IsInBimRelationship(c: ModelContent, inBimName: string, parentModelName: string) {
    c.contentType == Some("Relationship") && c.name == Some(inBimName) && c.target == Some(parentModelName)
  }

  function CountInBim(contents: seq<ModelContent>, inBimName: string, parentModelName: string): (r: nat)
    ensures r <= |contents|
    decreases |contents|
  {
    if |contents| == 0 then 0
    else
      (if IsInBimRelationship(contents[0], inBimName, parentModelName) then 1 else 0)
      + CountInBim(contents[1..], inBimName, parentModelName)
  }

  /** A node is kept when exactly one of its contents ties it to the parent. */
  predicate KeepsNode(node: BimNode, inBimName: string, parentModelName: string)
    requires node.modelContents.Some?
  {
    CountInBim(node.modelContents.value, inBimName, parentModelName) == 1
  }

  /** The filtered nodes, in key order; `None` when a node without model
      contents makes `filter` throw. */
  function BimFilter(nodes: seq<(string, BimNode)>, inBimName: string, parentModelName: string)
    : (r: Option<seq<(string, BimNode)>>)
    ensures r.Some? ==> |r.value| <= |nodes| && forall e :: e in r.value ==> e in nodes
    decreases |nodes|
  {
    if |nodes| == 0 then Some([])
    else
      var init := BimFilter(nodes[..|nodes| - 1], inBimName, parentModelName);
      assert forall e :: e in nodes[..|nodes| - 1] ==> e in nodes;
      var (key, node) := nodes[|nodes| - 1];
      if init.None? || node.modelContents.None? then None
      else if KeepsNode(node, inBimName, parentModelName) then Some(init.value + [(key, node)])
      else init
  }

  /** The filter returned by `createNodeFilterFromRootForBIM(parentModelName)`,
      applied to the nodes. */
  method FilterNodesForBIM(nodes: seq<(string, BimNode)>, inBimName: string, parentModelName: string)
    returns (filtered: Option<seq<(string, BimNode)>>)
    ensures filtered == BimFilter(nodes, inBimName, parentModelName)
  {
    var kept: seq<(string, BimNode)> := [];
    var i := 0;
    while i < |nodes|
      invariant 0 <= i <= |nodes|
      invariant BimFilter(nodes[..i], inBimName, parentModelName) == Some(kept)
    {
      assert nodes[..i + 1][..i] == nodes[..i];
      var (key, node) := nodes[i];
      if node.modelContents.None? {
        assert BimFilter(nodes[..i + 1], inBimName, parentModelName) == None;
        BimFilterFailureSticks(nodes, i + 1, inBimName, parentModelName);
        return None;
      }
      if CountInBim(node.modelContents.value, inBimName, parentModelName) == 1 {
        kept := kept + [(key, node)];
      }
      i := i + 1;
    }
    assert nodes[..|nodes|] == nodes;
    filtered := Some(kept);
  }

  lemma {:induction false} BimFilterFailureSticks(nodes: seq<(string, BimNode)>, i: nat, inBimName: string, parentModelName: string)
    requires i <= |nodes|
    requires BimFilter(nodes[..i], inBimName, parentModelName) == None
    ensures BimFilter(nodes, inBimName, parentModelName) == None
    decreases |nodes| - i
  {
    if i < |nodes| {
      assert nodes[..i + 1][..i] == nodes[..i];
      BimFilterFailureSticks(nodes, i + 1, inBimName, parentModelName);
    } else {
      assert nodes[..i] == nodes;
    }
  }

  /** Every node of a successful filter is kept unchanged under its key
      exactly when it passes the test. */
  lemma {:induction false} BimFilterSpec(nodes: seq<(string, BimNode)>, inBimName: string, parentModelName: string, entry: (string, BimNode))
    requires BimFilter(nodes, inBimName, parentModelName).Some?
    ensures forall i :: 0 <= i < |nodes| ==> nodes[i].1.modelContents.Some?
    ensures entry in BimFilter(nodes, inBimName, parentModelName).value <==>
      entry in nodes && KeepsNodeEntry(entry, inBimName, parentModelName)
    decreases |nodes|
  {
    if |nodes| > 0 {
      var init := nodes[..|nodes| - 1];
      BimFilterSpec(init, inBimName, parentModelName, entry);
      assert nodes == init + [nodes[|nodes| - 1]];
      forall i | 0 <= i < |nodes| ensures nodes[i].1.modelContents.Some? {
        if i < |init| { assert nodes[i] == init[i]; }
      }
    }
  }

  predicate KeepsNodeEntry(entry: (string, BimNode), inBimName: string, parentModelName: string) {
    entry.1.modelContents.Some? && KeepsNode(entry.1, inBimName, parentModelName)
  }

  /** A node without model contents makes the whole filter throw. */
  lemma BimFilterThrows(nodes: seq<(string, BimNode)>, inBimName: string, parentModelName: string, i: nat)
    requires i < |nodes| && nodes[i].1.modelContents.None?
    ensures BimFilter(nodes, inBimName, parentModelName) == None
  {
    if BimFilter(nodes, inBimName, parentModelName).Some? {
      BimFilterSpec(nodes, inBimName, parentModelName, nodes[i]);
    }
  }

  // ---------------------------------------------------------------------
  // objectHasOwnProperty, hasAllProcessGraphicsCardProperties

  function DigitChar(d: nat): char
    requires d < 10
  {
    "0123456789"[d]
  }

  /** The canonical decimal text of an index. */
  function IndexText(n: nat): string
    decreases n
  {
    if n < 10 then [DigitChar(n)] else IndexText(n / 10) + [DigitChar(n % 10)]
  }

  predicate IsIndexBelow(name: string, length: nat) {
    exists i :: 0 <= i < length && IndexText(i) == name
  }

  /** `Object.prototype.hasOwnProperty.call(obj, name)`: `None` where it
      throws, on `null` and `undefined`. Arrays and strings own their
      indices and `length`. */
  function HasOwnProperty(obj: JsValue, name: string): (r: Option<bool>)
    ensures r.None? <==> obj.Null? || obj.Undefined?
    ensures obj.Obj? ==> (r == Some(true) <==> exists i :: 0 <= i < |obj.fields| && obj.fields[i].0 == name)
  {
    match obj
    case Undefined => None
    case Null => None
    case Obj(fields) => Some(exists i :: 0 <= i < |fields| && fields[i].0 == name)
    case Arr(items) => Some(name == "length" || IsIndexBelow(name, |items|))
    case Str(s) => Some(name == "length" || IsIndexBelow(name, |s|))
    case _ => Some(false)
  }

  /** The value of the first field of that name, `undefined` when none. */
  function FieldValue(fields: seq<(string, JsValue)>, name: string): JsValue
    decreases |fields|
  {
    if |fields| == 0 then Undefined
    else if fields[0].0 == name then fields[0].1
    else FieldValue(fields[1..], name)
  }

  /** `obj[name]` for an object, `undefined` for anything else. */
  function OwnProperty(obj: JsValue, name: string): JsValue {
    if obj.Obj? then FieldValue(obj.fields, name) else Undefined
  }

  /** `hasAllProcessGraphicsCardProperties` on an object twin: `None` where
      it throws, when the twin owns the view-data property but its value is
      `null` or `undefined`. */
  function HasAllProcessGraphicsCardProperties(twin: JsValue, viewDataName: string, imgSrcName: string, imgPositionsName: string): (r: Option<bool>)
    requires twin.Obj?
    ensures r == Some(true) <==>
      HasOwnProperty(twin, viewDataName) == Some(true)
      && HasOwnProperty(OwnProperty(twin, viewDataName), imgSrcName) == Some(true)
      && HasOwnProperty(OwnProperty(twin, viewDataName), imgPositionsName) == Some(true)
    ensures r.None? <==>
      (HasOwnProperty(twin, viewDataName) == Some(true)
       && (OwnProperty(twin, viewDataName).Null? || OwnProperty(twin, viewDataName).Undefined?))
  {
    if HasOwnProperty(twin, viewDataName) != Some(true) then Some(false)
    else
      var viewData := OwnProperty(twin, viewDataName);
      match HasOwnProperty(viewData, imgSrcName)
      case None => None
      case Some(false) => Some(false)
      case Some(true) => HasOwnProperty(viewData, imgPositionsName)
  }

  /** A twin whose view data is an object holding both image properties has
      all of them. */
  lemma ProcessGraphicsTwin(viewDataName: string, imgSrcName: string, imgPositionsName: string, src: JsValue, positions: JsValue)
    requires imgSrcName != imgPositionsName
    ensures HasAllProcessGraphicsCardProperties(
      Obj([(viewDataName, Obj([(imgSrcName, src), (imgPositionsName, positions)]))]),
      viewDataName, imgSrcName, imgPositionsName) == Some(true)
  {
    var viewData := Obj([(imgSrcName, src), (imgPositionsName, positions)]);
    var twin := Obj([(viewDataName, viewData)]);
    assert twin.fields[0].0 == viewDataName;
    assert OwnProperty(twin, viewDataName) == viewData;
    assert viewData.fields[0].0 == imgSrcName;
    assert viewData.fields[1].0 == imgPositionsName;
  }
}
