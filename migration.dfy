/** The one-shot migration of a legacy 3D scenes configuration: a text
    pre-pass renaming "linked twin" to "primary twin", then a conversion of
    every legacy visual and gauge of every behaviour to the current schema.

    A JSON record is modelled by a datatype whose constructor plays the part
    of the record's `type` tag; the keys the converters do not name are kept
    in an `extra` list, so that dropping or keeping them is visible. */
module Migration {
  import opened Wrappers
  import opened JsValues
  import opened Strings

  type Fields = seq<(string, JsValue)>

  /** A value range, in the legacy shape `{min, max, color, id}` or in the
      current shape `{values, visual: {color, labelExpression?}, id}`. */
  datatype Range =
    | LegacyRange(min: JsValue, max: JsValue, color: JsValue, id: JsValue)
    | ValueRange(values: seq<JsValue>, visual: RangeVisual, id: JsValue)

  datatype RangeVisual = RangeVisual(color: JsValue, labelExpression: Option<string>)

  /** `vr.min`, `vr.max`, `vr.color`: undefined on a range of the current shape. */
  function MinOf(r: Range): JsValue {
    if r.LegacyRange? then r.min else Undefined
  }

  function MaxOf(r: Range): JsValue {
    if r.LegacyRange? then r.max else Undefined
  }

  function ColorOf(r: Range): JsValue {
    if r.LegacyRange? then r.color else Undefined
  }

  datatype ObjectIds = ObjectIds(expression: JsValue, extra: Fields)

  /** A behaviour's visual. `OtherVisual` is any visual whose type is none of
      'StatusColoring', 'Alert' and 'Popover'. */
  datatype Visual =
    | StatusColoring(statusValueExpression: JsValue, valueRanges: seq<Range>,
                     objectIds: ObjectIds, extra: Fields)
    | Alert(triggerExpression: JsValue, color: JsValue, labelExpression: Option<string>,
            objectIds: ObjectIds, extra: Fields)
    | Popover(widgets: seq<Widget>, extra: Fields)
    | ExpressionRangeVisual(expressionType: string, valueExpression: JsValue,
                            valueRanges: seq<Range>, objectIds: ObjectIds, extra: Fields)
    | OtherVisual(body: JsValue)

  /** A gauge's `widgetConfiguration`; `gaugeLabel` is its `label` key. */
  datatype GaugeConfiguration =
    GaugeConfiguration(gaugeLabel: JsValue, valueRanges: seq<Range>, units: JsValue, extra: Fields)

  /** A popover widget; `OtherWidget` is any widget whose type is not 'Gauge'. */
  datatype Widget =
    | Gauge(id: JsValue, valueExpression: JsValue, widgetConfiguration: GaugeConfiguration,
            extra: Fields)
    | OtherWidget(body: JsValue)

  // ---------------------------------------------------------------------
  // Range conversion
  // ---------------------------------------------------------------------

  /** The current-shape range pushed for one old range. */
  function ConvertedRange(r: Range): (n: Range)
    ensures n.ValueRange? && n.id == r.id && n.visual.labelExpression.None?
  {
    ValueRange([MinOf(r), MaxOf(r)], RangeVisual(ColorOf(r), None), r.id)
  }

  /** The ranges of a status visual or a gauge after conversion: one per old
      range, in the same order. */
  function ConvertedRanges(ranges: seq<Range>): (r: seq<Range>)
    ensures |r| == |ranges|
    ensures forall i :: 0 <= i < |ranges| ==> r[i] == ConvertedRange(ranges[i])
  {
    if ranges == [] then [] else [ConvertedRange(ranges[0])] + ConvertedRanges(ranges[1..])
  }

  /** A legacy range keeps its bounds, in order, its colour and its id. */
  lemma LegacyRangeConversion(r: Range)
    requires r.LegacyRange?
    ensures ConvertedRange(r).values == [r.min, r.max]
    ensures ConvertedRange(r).visual == RangeVisual(r.color, None)
    ensures ConvertedRange(r).id == r.id
  {
  }

  /** The forEach loop that pushes one converted range per old range. */
  method ConvertRanges(ranges: seq<Range>) returns (converted: seq<Range>)
    ensures converted == ConvertedRanges(ranges)
  {
    converted := [];
    for i := 0 to |ranges|
      invariant |converted| == i
      invariant forall k :: 0 <= k < i ==> converted[k] == ConvertedRange(ranges[k])
    {
      converted := converted + [ConvertedRange(ranges[i])];
    }
  }

  // ---------------------------------------------------------------------
  // Visual and widget converters
  // ---------------------------------------------------------------------

  /** `convertStatusColoring`: a numeric-range expression visual. */
  function ConvertedStatusColoring(v: Visual): (n: Visual)
    requires v.StatusColoring?
    ensures n.ExpressionRangeVisual? && n.expressionType == "NumericRange"
    ensures n.valueExpression == v.statusValueExpression
    ensures n.objectIds.expression == v.objectIds.expression && n.objectIds.extra == []
    ensures |n.valueRanges| == |v.valueRanges|
    ensures n.valueRanges == ConvertedRanges(v.valueRanges)
  {
    ExpressionRangeVisual("NumericRange", v.statusValueExpression,
                          ConvertedRanges(v.valueRanges), ObjectIds(v.objectIds.expression, []), [])
  }

  /** The label an alert's range carries: the old label between backticks. */
  function AlertLabel(labelExpression: Option<string>): (l: string)
    ensures |l| >= 2 && l[0] == '`' && l[|l| - 1] == '`'
    ensures labelExpression.Some? ==> l[1..|l| - 1] == labelExpression.value
  {
    "`" + TemplateText(labelExpression) + "`"
  }

  /** `convertAlert`, with the random hex id drawn for its one range given as
      `rangeId`. */
  function ConvertedAlert(v: Visual, rangeId: string): (n: Visual)
    requires v.Alert?
    ensures n.ExpressionRangeVisual? && n.expressionType == "CategoricalValues"
    ensures n.valueExpression == v.triggerExpression
    ensures n.objectIds.expression == v.objectIds.expression && n.objectIds.extra == []
  {
    ExpressionRangeVisual(
      "CategoricalValues", v.triggerExpression,
      [ValueRange([Bool(true)], RangeVisual(v.color, Some(AlertLabel(v.labelExpression))), Str(rangeId))],
      ObjectIds(v.objectIds.expression, []), [])
  }

  /** An alert becomes exactly one range, matched by `true`, with the old
      colour and the old label between backticks. */
  lemma AlertHasOneRange(v: Visual, rangeId: string)
    requires v.Alert?
    ensures |ConvertedAlert(v, rangeId).valueRanges| == 1
    ensures ConvertedAlert(v, rangeId).valueRanges[0]
         == ValueRange([Bool(true)], RangeVisual(v.color, Some("`" + TemplateText(v.labelExpression) + "`")),
                       Str(rangeId))
  {
  }

  /** `convertGauge`: the gauge keeps its id, value expression, label and
      units; its ranges are converted; every other key is dropped. */
  function ConvertedGauge(g: Widget): (n: Widget)
    requires g.Gauge?
    ensures n.Gauge? && n.id == g.id && n.valueExpression == g.valueExpression
    ensures n.widgetConfiguration.gaugeLabel == g.widgetConfiguration.gaugeLabel
    ensures n.widgetConfiguration.units == g.widgetConfiguration.units
    ensures |n.widgetConfiguration.valueRanges| == |g.widgetConfiguration.valueRanges|
    ensures n.widgetConfiguration.valueRanges == ConvertedRanges(g.widgetConfiguration.valueRanges)
    ensures n.extra == [] && n.widgetConfiguration.extra == []
  {
    Gauge(g.id, g.valueExpression,
          GaugeConfiguration(g.widgetConfiguration.gaugeLabel, ConvertedRanges(g.widgetConfiguration.valueRanges),
                             g.widgetConfiguration.units, []),
          [])
  }

  method ConvertStatusColoring(v: Visual) returns (n: Visual)
    requires v.StatusColoring?
    ensures n == ConvertedStatusColoring(v)
  {
    var ranges := ConvertRanges(v.valueRanges);
    n := ExpressionRangeVisual("NumericRange", v.statusValueExpression, ranges,
                               ObjectIds(v.objectIds.expression, []), []);
  }

  method ConvertGauge(g: Widget) returns (n: Widget)
    requires g.Gauge?
    ensures n == ConvertedGauge(g)
  {
    var ranges := ConvertRanges(g.widgetConfiguration.valueRanges);
    n := Gauge(g.id, g.valueExpression,
               GaugeConfiguration(g.widgetConfiguration.gaugeLabel, ranges, g.widgetConfiguration.units, []),
               []);
  }

  // ---------------------------------------------------------------------
  // The visuals migration
  // ---------------------------------------------------------------------

  function MigratedWidget(w: Widget): (r: Widget)
    ensures r.Gauge? <==> w.Gauge?
    ensures !w.Gauge? ==> r == w
    ensures w.Gauge? ==> r.id == w.id && r.valueExpression == w.valueExpression
                         && |r.widgetConfiguration.valueRanges| == |w.widgetConfiguration.valueRanges|
                         && r.widgetConfiguration.valueRanges == ConvertedRanges(w.widgetConfiguration.valueRanges)
                         && r.widgetConfiguration.gaugeLabel == w.widgetConfiguration.gaugeLabel
                         && r.widgetConfiguration.units == w.widgetConfiguration.units
  {
    if w.Gauge? then ConvertedGauge(w) else w
  }

  function MigratedWidgets(ws: seq<Widget>): (r: seq<Widget>)
    ensures |r| == |ws|
    ensures forall i :: 0 <= i < |ws| ==> r[i] == MigratedWidget(ws[i])
  {
    if ws == [] then [] else [MigratedWidget(ws[0])] + MigratedWidgets(ws[1..])
  }

  /** The visual the `map` callback returns; `alertRangeId` is the random id
      an alert would receive. */
  function MigratedVisual(v: Visual, alertRangeId: string): (r: Visual)
    ensures v.StatusColoring? || v.Alert? || v.ExpressionRangeVisual? ==> r.ExpressionRangeVisual?
    ensures v.Popover? ==> r.Popover? && |r.widgets| == |v.widgets| && r.extra == v.extra
    ensures v.Popover? ==> forall i :: 0 <= i < |v.widgets| ==> r.widgets[i] == MigratedWidget(v.widgets[i])
    ensures v.StatusColoring? ==> r.valueRanges == ConvertedRanges(v.valueRanges)
    ensures v.ExpressionRangeVisual? || v.OtherVisual? ==> r == v
  {
    match v
    case StatusColoring(_, _, _, _) => ConvertedStatusColoring(v)
    case Alert(_, _, _, _, _) => ConvertedAlert(v, alertRangeId)
    case Popover(widgets, extra) => Popover(MigratedWidgets(widgets), extra)
    case ExpressionRangeVisual(_, _, _, _, _) => v
    case OtherVisual(_) => v
  }

  /** The migrated list of visuals; the i-th alert-range id is `alertRangeIds(i)`. */
  function MigratedVisuals(visuals: seq<Visual>, alertRangeIds: nat -> string): (r: seq<Visual>)
    ensures |r| == |visuals|
    ensures forall i :: 0 <= i < |visuals| ==> r[i] == MigratedVisual(visuals[i], alertRangeIds(i))
    decreases |visuals|
  {
    if visuals == [] then []
    else MigratedVisuals(visuals[..|visuals| - 1], alertRangeIds)
         + [MigratedVisual(visuals[|visuals| - 1], alertRangeIds(|visuals| - 1))]
  }

  /** Every visual keeps its place: legacy status and alert visuals become
      expression visuals, popovers stay popovers with the same number of
      widgets (every gauge converted, every other widget unchanged), and any
      other visual is unchanged. */
  lemma MigrationKeepsPlaces(visuals: seq<Visual>, alertRangeIds: nat -> string, i: int)
    requires 0 <= i < |visuals|
    ensures var r := MigratedVisuals(visuals, alertRangeIds);
      && |r| == |visuals|
      && (visuals[i].StatusColoring? ==> r[i] == ConvertedStatusColoring(visuals[i]))
      && (visuals[i].Alert? ==> r[i] == ConvertedAlert(visuals[i], alertRangeIds(i)))
      && (visuals[i].Popover? ==>
            && r[i].Popover? && r[i].extra == visuals[i].extra
            && |r[i].widgets| == |visuals[i].widgets|
            && forall k :: 0 <= k < |visuals[i].widgets| ==>
                 (visuals[i].widgets[k].Gauge? ==> r[i].widgets[k] == ConvertedGauge(visuals[i].widgets[k]))
                 && (!visuals[i].widgets[k].Gauge? ==> r[i].widgets[k] == visuals[i].widgets[k]))
      && (visuals[i].ExpressionRangeVisual? || visuals[i].OtherVisual? ==> r[i] == visuals[i])
  {
  }

  /** Migrated status and alert visuals are left alone by a second run. */
  lemma ExpressionVisualsSettle(v: Visual, id1: string, id2: string)
    requires !v.Popover?
    ensures MigratedVisual(MigratedVisual(v, id1), id2) == MigratedVisual(v, id1)
  {
  }

  /** A migrated gauge still has type 'Gauge', so a second run converts it
      again and loses its range bounds and colours. */
  lemma SecondGaugeMigrationLosesBounds()
    ensures var g := Gauge(Str("g"), Str("x"), GaugeConfiguration(Str("l"), [LegacyRange(Num(0.0), Num(1.0), Str("red"), Str("r"))], Undefined, []), []);
      && ConvertedGauge(g).widgetConfiguration.valueRanges[0].values == [Num(0.0), Num(1.0)]
      && ConvertedGauge(ConvertedGauge(g)).widgetConfiguration.valueRanges[0].values == [Undefined, Undefined]
      && ConvertedGauge(ConvertedGauge(g)).widgetConfiguration.valueRanges[0].visual.color == Undefined
  {
  }

  method MigrateWidgets(widgets: seq<Widget>) returns (migrated: seq<Widget>)
    ensures migrated == MigratedWidgets(widgets)
  {
    migrated := [];
    for i := 0 to |widgets|
      invariant |migrated| == i
      invariant forall k :: 0 <= k < i ==> migrated[k] == MigratedWidget(widgets[k])
    {
      var w := widgets[i];
      if w.Gauge? {
        w := ConvertGauge(w);
      }
      migrated := migrated + [w];
    }
  }

  method MigrateVisual(v: Visual, alertRangeId: string) returns (n: Visual)
    ensures n == MigratedVisual(v, alertRangeId)
  {
    match v
    case StatusColoring(_, _, _, _) =>
      n := ConvertStatusColoring(v);
    case Alert(_, _, _, _, _) =>
      n := ConvertedAlert(v, alertRangeId);
    case Popover(widgets, extra) =>
      var migrated := MigrateWidgets(widgets);
      n := Popover(migrated, extra);
    case ExpressionRangeVisual(_, _, _, _, _) =>
      n := v;
    case OtherVisual(_) =>
      n := v;
  }

  /** `behavior.visuals.map(...)`. */
  method MigrateVisuals(visuals: seq<Visual>, alertRangeIds: nat -> string) returns (migrated: seq<Visual>)
    ensures migrated == MigratedVisuals(visuals, alertRangeIds)
  {
    migrated := [];
    for i := 0 to |visuals|
      invariant |migrated| == i
      invariant forall k :: 0 <= k < i ==> migrated[k] == MigratedVisual(visuals[k], alertRangeIds(k))
    {
      var n := MigrateVisual(visuals[i], alertRangeIds(i));
      migrated := migrated + [n];
    }
  }

  /** A behaviour object of the parsed configuration. */
  class Behavior {
    var visuals: seq<Visual>

    constructor(visuals: seq<Visual>)
      ensures this.visuals == visuals
    {
      this.visuals := visuals;
    }
  }

  /** The forEach over the configuration's behaviours, reassigning each
      behaviour's visuals in place. The behaviours of a parsed JSON document
      are distinct objects; the id of the alert range drawn for visual i of
      behaviour j is `alertRangeIds(j, i)`. */
  method MigrateBehaviors(behaviors: seq<Behavior>, alertRangeIds: (nat, nat) -> string)
    requires forall j, k :: 0 <= j < |behaviors| && 0 <= k < |behaviors| && j != k ==> behaviors[j] != behaviors[k]
    modifies set b | b in behaviors
    ensures forall j :: 0 <= j < |behaviors| ==>
      behaviors[j].visuals == MigratedVisuals(old(behaviors[j].visuals), (i: nat) => alertRangeIds(j, i))
  {
    for j := 0 to |behaviors|
      invariant forall k :: 0 <= k < j ==>
        behaviors[k].visuals == MigratedVisuals(old(behaviors[k].visuals), (i: nat) => alertRangeIds(k, i))
      invariant forall k :: j <= k < |behaviors| ==> behaviors[k].visuals == old(behaviors[k].visuals)
    {
      var migrated := MigrateVisuals(behaviors[j].visuals, (i: nat) => alertRangeIds(j, i));
      behaviors[j].visuals := migrated;
    }
  }

  // ---------------------------------------------------------------------
  // The text pre-pass
  // ---------------------------------------------------------------------

  const ByteOrderMark: char := '\U{FEFF}'

  /** The anchored replace of U+FEFF by nothing: at most one leading byte order mark removed. */
  function StripByteOrderMark(text: string): (r: string)
    ensures if |text| > 0 && text[0] == ByteOrderMark then r == text[1..] else r == text
  {
    if |text| > 0 && text[0] == ByteOrderMark then text[1..] else text
  }

  /** The text the configuration is parsed from. */
  function Prepass(text: string): (r: string)
    ensures NoOccurrence(r, "linkedTwin")
    ensures NoOccurrence(r, "LinkedTwin")
  {
    var t := StripByteOrderMark(text);
    var once := ReplaceAll(t, "linkedTwin", "primaryTwin");
    ReplaceAllRemovesAll(t, "linkedTwin", "primaryTwin");
    ReplaceAllKeepsAbsent(once, "LinkedTwin", "PrimaryTwin", "linkedTwin");
    ReplaceAllRemovesAll(once, "LinkedTwin", "PrimaryTwin");
    ReplaceAll(once, "LinkedTwin", "PrimaryTwin")
  }

  /** Text with no byte order mark and neither spelling passes unchanged. */
  lemma {:induction false} PrepassKeepsOtherText(text: string)
    requires !(|text| > 0 && text[0] == ByteOrderMark)
    requires NoOccurrence(text, "linkedTwin") && NoOccurrence(text, "LinkedTwin")
    ensures Prepass(text) == text
  {
    ReplaceAllWithoutOccurrence(text, "linkedTwin", "primaryTwin");
    ReplaceAllWithoutOccurrence(text, "LinkedTwin", "PrimaryTwin");
  }
}
