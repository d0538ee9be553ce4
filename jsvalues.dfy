/** The few JavaScript value semantics the modelled code depends on:
    truthiness and the text a template literal gives for a value. */
module JsValues {
  import opened Wrappers

  /** An untyped JavaScript value, as held by an `any` field. */
  datatype JsValue =
    | Undefined
    | Null
    | Bool(b: bool)
    | Num(n: real)
    | NaN
    | Str(s: string)
    | Arr(items: seq<JsValue>)
    | Obj(fields: seq<(string, JsValue)>)

  /** ECMAScript ToBoolean. */
  predicate Truthy(v: JsValue) {
    match v
    case Undefined => false
    case Null => false
    case Bool(b) => b
    case Num(n) => n != 0.0
    case NaN => false
    case Str(s) => s != ""
    case Arr(_) => true
    case Obj(_) => true
  }

  /** Truthiness of an optional string; None stands for null or undefined. */
  predicate TruthyText(s: Option<string>) {
    s.Some? && s.value != ""
  }

  /** `a || b` for two optional strings. */
  function OrText(a: Option<string>, b: Option<string>): Option<string> {
    if TruthyText(a) then a else b
  }

  /** `x || ''`: the string itself when truthy, otherwise the empty string. */
  function TextOrEmpty(s: Option<string>): string {
    if TruthyText(s) then s.value else ""
  }

  /** The text `${x}` produces for an optional string (undefined prints as "undefined"). */
  function TemplateText(s: Option<string>): string {
    match s
    case Some(t) => t
    case None => "undefined"
  }
}
