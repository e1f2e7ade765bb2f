/** The two JavaScript conventions the viewer's accessors depend on: an
    argument left `undefined`, and the truthiness test `if (!arg)`. */
module JsValues {

  /** `None` is an argument the caller did not supply (`undefined`);
      `Some(v)` is a supplied value, however falsy. */
  datatype Option<+T> = None | Some(value: T)

  /** JavaScript truthiness of an optional number: `undefined` and `0` are falsy. */
  predicate NumberTruthy(a: Option<real>) {
    a.Some? && a.value != 0.0
  }

  /** JavaScript truthiness of an optional string: `undefined` and `""` are falsy. */
  predicate StringTruthy(a: Option<string>) {
    a.Some? && a.value != ""
  }
}
