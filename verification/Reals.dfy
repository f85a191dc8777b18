/** `max` and `min` on reals. */
module Reals {
  function Max(a: real, b: real): real { if a < b then b else a }

  function Min(a: real, b: real): real { if a < b then a else b }
}
