/** The Some/None wrapper used wherever the source has a nullable column
    (`pickupTime`, `assignedDriver`, `otp`) or a request field that may be
    absent from the body. */
module Optional {

  datatype Option<+T> = None | Some(value: T)

  /** JavaScript truthiness of a string-valued request field: `undefined`,
      `null` and the empty string all count as missing. */
  predicate Present(f: Option<string>)
  {
    f.Some? && f.value != ""
  }
}
