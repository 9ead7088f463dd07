/** The two result shapes used throughout: an optional value, and a value or an error. */
module Prelude {
  datatype Option<+T> = None | Some(value: T)

  datatype Result<+T, +E> = Ok(value: T) | Err(error: E)

  function ValueOr(o: Option<int>, default: int): int {
    if o.Some? then o.value else default
  }

  /** A text setting's value, or its default when it is empty. */
  function OrElse(text: string, default: string): string {
    if text == "" then default else text
  }

  const INT64_MIN: int := -0x8000_0000_0000_0000
  const INT64_MAX: int := 0x7FFF_FFFF_FFFF_FFFF

  predicate IsInt64(n: int) {
    INT64_MIN <= n <= INT64_MAX
  }

  /** Go's int64 arithmetic keeps the low 64 bits of the exact result, in two's complement. */
  function Wrap64(n: int): (r: int)
    ensures IsInt64(r)
    ensures IsInt64(n) ==> r == n
  {
    (n - INT64_MIN) % 0x1_0000_0000_0000_0000 + INT64_MIN
  }
}
