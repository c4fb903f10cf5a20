/** Small shared vocabulary: the optional value used for JavaScript's `null`. */
module Base {

  /** `None` plays the part of JavaScript's `null` / `undefined`. */
  datatype Option<+T> = None | Some(value: T)

  function Min(a: int, b: int): int { if a <= b then a else b }

  function Max(a: int, b: int): int { if a >= b then a else b }
}
