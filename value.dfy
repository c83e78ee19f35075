/** burning::profiling::Value: a recorded quantity and the name of its unit. */
module Values {
  import opened Attributes

  datatype Value = Value(payload: Attribute, measure: string)

  /** Value(): the default payload and no unit; this is what resizing a row fills in. */
  const DefaultValue: Value := Value(DefaultAttribute, "")
}
