/** An optional value: a TypeScript field declared with `?`, or a value that may be `undefined`. */
module Options {

  datatype Option<+T> = None | Some(value: T)

}
