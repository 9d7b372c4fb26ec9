/** `TuistGraph.Plist.Value`: the internal plist value tree, the same six shapes as the manifest's. */
module GraphPlist {
  import opened Primitives

  datatype Value =
    | String(stringValue: string)
    | Boolean(boolValue: bool)
    | Integer(intValue: Int64)
    | Real(realValue: Double)
    | Array(items: seq<Value>)
    | Dictionary(entries: map<string, Value>)
}
