/** Vocabulary shared by the deck component and the drag hook. */
module Gesture {

  /** A swipe direction: 'left', 'right', 'up' or 'none' (Neutral). */
  datatype Direction = Left | Right | Up | Neutral

  datatype Option<T> = None | Some(value: T)

  /** `Math.abs` on coordinates. */
  function Abs(v: real): real
  {
    if v < 0.0 then -v else v
  }

  /** `Math.max` of two numbers. */
  function Max(a: real, b: real): real
  {
    if a < b then b else a
  }

  /** `Math.min` of two numbers. */
  function Min(a: real, b: real): real
  {
    if a < b then a else b
  }
}
