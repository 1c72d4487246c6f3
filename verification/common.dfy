/** Values the source writes as `T | null` or as an optional field. */
module Common {

  datatype Option<T> = None | Some(value: T)

  /** JavaScript truthiness of an optional string field: absent, `null` and
      the empty string all fail a `!field` check. */
  predicate Present(field: Option<string>)
  {
    field.Some? && field.value != ""
  }

  /** `field || null` */
  function OrNull(field: Option<string>): (r: Option<string>)
    ensures r.Some? <==> Present(field)
    ensures r.Some? ==> r == field
  {
    if Present(field) then field else None
  }
}
