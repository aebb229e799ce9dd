/** The JavaScript values that metric items, mappings and grid rows are made of. */
module JsValues {

  /** Every value is known by its string form and, when truthy, by its own properties:
      an array has the fields "0", "1", ... and "length", a number has none. */
  datatype Value =
    | Undefined
    | Falsy(text: string)
    | Truthy(text: string, fields: map<string, Value>)

  const NULL := Falsy("null")

  /** An object literal without properties. */
  const EMPTY_OBJECT := Truthy("[object Object]", map[])

  /** The string a value becomes when it is used as a property name. */
  function AsKey(v: Value): string {
    if v.Undefined? then "undefined" else v.text
  }

  /** Reading `v[key]`; undefined and null never get here. */
  function Get(v: Value, key: string): Value {
    if v.Truthy? && key in v.fields then v.fields[key] else Undefined
  }

  /** The field that `path` selects in `data`. A mapping renames the steps: while it has an entry
      for a step, that entry's "" property is the field to follow. */
  function Project(data: Value, mapping: Value, path: seq<string>): Value
    decreases |path|
  {
    if path == [] then data
    else if !data.Truthy? then Undefined
    else if mapping == Undefined || mapping == NULL then Project(Get(data, path[0]), mapping, path[1..])
    else
      var step := Get(mapping, path[0]);
      if step.Truthy? then Project(Get(data, AsKey(Get(step, ""))), step, path[1..])
      else Project(Get(data, path[0]), step, path[1..])
  }

  /** The loop of the sink, one path step at a time. */
  method Select(item: Value, mapping: Value, path: seq<string>) returns (data: Value)
    ensures data == Project(item, mapping, path)
  {
    data := item;
    var names := mapping;
    var j := 0;
    while data != Undefined && j < |path|
      invariant 0 <= j <= |path|
      invariant Project(data, names, path[j..]) == Project(item, mapping, path)
    {
      assert path[j..][0] == path[j] && path[j..][1..] == path[j + 1..];
      if !data.Truthy? {
        data := Undefined;
      } else if names != Undefined && names != NULL {
        names := Get(names, path[j]);
        if names.Truthy? {
          data := Get(data, AsKey(Get(names, "")));
        } else {
          data := Get(data, path[j]);
        }
      } else {
        data := Get(data, path[j]);
      }
      j := j + 1;
    }
  }
}
