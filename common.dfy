/** Small shared vocabulary: an optional value, used for Python's None and for JavaScript's null. */
module Common {

  datatype Option<+T> = None | Some(value: T)

  function Max(a: int, b: int): int { if a < b then b else a }

  function Abs(x: int): nat { if x < 0 then -x else x }
}
