/** An optional value: stands for JavaScript's `undefined`/`null` (and, for times, `NaN`). */
module Maybe {
  datatype Option<+T> = None | Some(value: T)
}
