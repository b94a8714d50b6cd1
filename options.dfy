/** The optional value used where the JavaScript code may hold `null`. */
module Options {
  datatype Option<+T> = None | Some(value: T)
}
