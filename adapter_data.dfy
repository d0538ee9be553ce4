/** The data envelopes adapters hand back: the `IAdapterData` classes whose
    only question is whether they hold data, and the `AdapterResult` record
    that pairs such data with the errors collected while producing it. */
module AdapterData {
  import opened Wrappers
  import opened JsValues

  /** `StandardModelData`: wraps an arbitrary value. */
  datatype StandardModelData = StandardModelData(data: JsValue) {
    /** Only `null` and `undefined` count as no data; every other value,
        falsy ones included, is data. */
    predicate HasNoData() {
      data.Null? || data.Undefined?
    }
  }

  /** A DTDL interface, reduced to what identifies it. */
  datatype DtdlInterface = DtdlInterface(id: string, displayName: Option<string>)

  /** The payload of `ExpandedADTModelData`: absent (`null` or `undefined`)
      or a root model with the models it expands to. */
  datatype ExpandedModels =
    | NullModels
    | UndefinedModels
    | Models(rootModel: DtdlInterface, expandedModels: seq<DtdlInterface>)

  datatype ExpandedADTModelData = ExpandedADTModelData(data: ExpandedModels) {
    predicate HasNoData() {
      data.NullModels? || data.UndefinedModels?
    }
  }

  /** The error categories the modelled adapters attach to their errors. */
  datatype ComponentErrorType = DataFetchFailed

  /** An error in an adapter result: either one the operation pushed itself,
      with the category and severity it chose, or an exception that escaped
      the operation and was recorded by the method sandbox (whose own
      classification of such exceptions is not part of this model). */
  datatype CardError =
    | Pushed(errorType: Option<ComponentErrorType>, isCatastrophic: bool)
    | Escaped

  /** `AdapterResult<T>`: the operation's result (`None` for `null`) and the
      errors collected on the way. */
  datatype AdapterResult<T> = AdapterResult(result: Option<T>, errors: seq<CardError>) {
    predicate HasNoData() { result.None? }
  }

  /** What a sandboxed operation returns when an exception escapes it. */
  function EscapedResult<T>(): (r: AdapterResult<T>)
    ensures r.HasNoData() && r.errors == [Escaped]
  {
    AdapterResult(None, [Escaped])
  }

  /** What an operation returns when it catches a failure, records it as a
      non-catastrophic fetch failure and returns `null`. */
  function FetchFailedResult<T>(): (r: AdapterResult<T>)
    ensures r.HasNoData()
    ensures r.errors == [Pushed(Some(DataFetchFailed), false)]
  {
    AdapterResult(None, [Pushed(Some(DataFetchFailed), false)])
  }

  /** Falsy values other than `null` and `undefined` are data. */
  lemma FalsyValuesAreData(v: JsValue)
    requires !Truthy(v) && !v.Null? && !v.Undefined?
    ensures !StandardModelData(v).HasNoData()
    ensures v == Bool(false) || v == Num(0.0) || v == NaN || v == Str("")
  {
  }

  /** A model without expansions is still data. */
  lemma EmptyExpansionIsData(root: DtdlInterface)
    ensures !ExpandedADTModelData(Models(root, [])).HasNoData()
  {
  }
}
