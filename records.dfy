/**
  The parsed JSON the search component works on. A parameter record comes
  from the uploaded configuration document, a descriptor from the reference
  dataset, and a row is what the results table displays.
 */
module Records {
  import opened Wrappers
  import opened JsText

  /** A parameter's `idx`: a single number or an array of numbers. */
  datatype Index = Scalar(n: int) | List(items: seq<int>)

  /** A parameter's `val`: a number or a string. */
  datatype RawValue = IntVal(i: int) | StrVal(s: string)

  /** A descriptor's `value`: a literal display string, or an object from raw values to labels. */
  datatype ValueRule = Literal(text: string) | Lookup(labels: map<string, string>)

  /** One entry of a group's `params`: its `var`, `idx`, `val` and `attr`. */
  datatype Param = Param(variable: int, idx: Index, val: RawValue, attr: string)

  /** One entry of the reference dataset: `variable_id`, `name` and `value`. */
  datatype Descriptor = Descriptor(variableId: int, name: string, value: ValueRule)

  /** One row of the results table: `var`, `name`, `idx`, `value` and `attr`. */
  datatype Row = Row(variable: int, name: string, idx: string, value: string, attr: string)

  /** One entry of the document's `config` list; `params` is None when the key is absent. */
  datatype Group = Group(params: Option<seq<Param>>)

  /** The uploaded document; `config` is None when the key is absent. */
  datatype ConfigDocument = ConfigDocument(config: Option<seq<Group>>)

  /** JavaScript's String(v): how a raw value appears in text and as a property key. */
  function ValText(v: RawValue): string {
    match v
    case IntVal(i) => IntToString(i)
    case StrVal(s) => s
  }
}
