/** Small shared vocabulary: optional values, results and machine-integer bounds. */
module Prelude {

  datatype Option<+T> = None | Some(value: T)

  datatype Result<+T, +E> = Ok(value: T) | Err(error: E)

  /** One more than the largest u64. */
  const TWO_64 := 0x1_0000_0000_0000_0000

  const MAX_U64 := TWO_64 - 1

  /** `u64::saturating_add`. */
  function SaturatingAdd(a: nat, b: nat): (r: nat)
    ensures r <= MAX_U64
    ensures a + b <= MAX_U64 ==> r == a + b
    ensures a + b > MAX_U64 ==> r == MAX_U64
  {
    if a + b > MAX_U64 then MAX_U64 else a + b
  }

  /** White space as `str::trim` sees it. */
  predicate IsWhitespace(c: char) {
    var n := c as int;
    || 0x09 <= n <= 0x0D || n == 0x20 || n == 0x85 || n == 0xA0 || n == 0x1680
    || 0x2000 <= n <= 0x200A || n == 0x2028 || n == 0x2029 || n == 0x202F || n == 0x205F || n == 0x3000
  }

  /** `text.trim().is_empty()`. */
  predicate IsBlank(text: string) {
    forall i :: 0 <= i < |text| ==> IsWhitespace(text[i])
  }

  lemma {:induction false} SubsetSize<T>(a: set<T>, b: set<T>)
    requires a <= b
    ensures |a| <= |b|
  {
    if x :| x in a {
      SubsetSize(a - {x}, b - {x});
    }
  }
}
