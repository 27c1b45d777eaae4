/** Shared vocabulary: optional values, the service errors, and a few Go library functions. */
module Prelude {

  datatype Option<+T> = None | Some(value: T)

  /** The sentinel errors of internal/common/errors.go, plus `Storage` for a statement the
      database did not execute. */
  datatype Error = NotFound | Conflict | Invalid | Storage

  datatype Result<+T> = Ok(value: T) | Err(error: Error)

  /** What becomes of a statement: executed and acknowledged, not executed, or executed while its
      acknowledgement gets lost. The caller sees an error in the last two cases. */
  datatype Fate = Fine | Lost | Unacked

  function FirstNonEmpty(values: seq<string>): string {
    if values == [] then "" else if values[0] != "" then values[0] else FirstNonEmpty(values[1..])
  }

  /** White space as strings.TrimSpace removes it. */
  predicate IsSpace(c: char) {
    var n := c as int;
    9 <= n <= 13 || n in {0x20, 0x85, 0xA0, 0x1680, 0x2028, 0x2029, 0x202F, 0x205F, 0x3000} || 0x2000 <= n <= 0x200A
  }

  /** TrimSpace leaves nothing. */
  predicate Blank(s: string) {
    forall i :: 0 <= i < |s| ==> IsSpace(s[i])
  }

  /** Go's integer division truncates towards zero. */
  function Quot(a: int, b: int): int
    requires b > 0
  {
    if a >= 0 then a / b else -((-a) / b)
  }
}
