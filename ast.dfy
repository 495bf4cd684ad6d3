/**
  The tree shared by the parser and the generator (internal/ast/ast.go).

  A property value is a record of six optional fields, as in Go, where every
  field is a pointer, a slice or a map that may be nil. The generator looks at
  the first populated field in the order String, Number, Boolean, Widget,
  List, Style; a value with no field set renders as `null`.
*/
module Ast {
  import opened Wrappers

  /** One constructor call: its name, its named arguments, its `children`. */
  datatype WidgetNode = WidgetNode(
    name: string,
    properties: map<string, PropertyValue>,
    children: seq<WidgetNode>)

  /**
    Go's float64 is not modelled; a number carries the text that `%v` prints
    for it. The parser never produces one.
  */
  datatype Float64 = Float64(formatted: string)

  /** A non-nil `[]PropertyValue` (it may be empty). */
  datatype PropertyList = PropertyList(items: seq<PropertyValue>)

  datatype PropertyValue = PropertyValue(
    str: Option<string>,
    number: Option<Float64>,
    boolean: Option<bool>,
    widget: Option<WidgetNode>,
    list: Option<PropertyList>,
    style: Option<map<string, string>>)

  /** The root pointer may be nil in Go; the parser never returns a nil root. */
  datatype WidgetTree = WidgetTree(root: Option<WidgetNode>)

  /** `PropertyValue{String: &s}`. */
  function StringValue(s: string): PropertyValue
  {
    PropertyValue(Some(s), None, None, None, None, None)
  }

  /** `PropertyValue{Widget: n}`. */
  function WidgetValue(n: WidgetNode): PropertyValue
  {
    PropertyValue(None, None, None, Some(n), None, None)
  }

  /** The number of populated fields of a value. */
  function PopulatedFields(v: PropertyValue): nat
  {
    (if v.str.Some? then 1 else 0) + (if v.number.Some? then 1 else 0)
    + (if v.boolean.Some? then 1 else 0) + (if v.widget.Some? then 1 else 0)
    + (if v.list.Some? then 1 else 0) + (if v.style.Some? then 1 else 0)
  }
}
