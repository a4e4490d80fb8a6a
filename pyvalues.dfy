/** Python values as the dashboard sees them: optional provider fields,
    provider accesses that may raise, and truthiness of numbers. */
module PyValues {

  /** `None` or a value, as returned by `dict.get`. */
  datatype Option<+T> = None | Some(value: T)

  /** One access to the market-data provider: it raises an exception,
      or it yields a value. */
  datatype Access<+T> = Raises | Yields(value: T)

  /** Python truthiness of an optional number: `None` and zero are false;
      every other number, negative ones included, is true. */
  predicate Truthy(v: Option<real>)
  {
    v.Some? && v.value != 0.0
  }
}
