/**
  `hashString`, the 31-multiplier string hash that the ingredient-matching and
  search pages each define, with JavaScript's 32-bit integer semantics written
  out: `<<` and `|= 0` reduce to a signed 32-bit value, `Math.abs` is applied
  to the final (double) value.
 */
module StringHash {

  const TwoTo31: int := 0x8000_0000
  const TwoTo32: int := 0x1_0000_0000

  predicate IsInt32(x: int) { -TwoTo31 <= x < TwoTo31 }

  /** ECMAScript ToInt32: wrap an integer into the signed 32-bit range. */
  function ToInt32(x: int): (r: int)
    ensures IsInt32(r)
    ensures (r - x) % TwoTo32 == 0
  {
    var m := x % TwoTo32;
    if m >= TwoTo31 then m - TwoTo32 else m
  }

  /** One loop step: the hash shifted left by five, minus the hash, plus the
      character code, wrapped to 32 bits. The shift is ToInt32(hash * 32); the
      subtraction and addition are exact in double precision. */
  function HashStep(h: int, code: int): int {
    ToInt32(ToInt32(h * 32) - h + code)
  }

  /** The loop over the characters of `s`, each character standing for one
      UTF-16 code unit. */
  function HashLoop(s: string): (h: int)
    ensures IsInt32(h)
  {
    if |s| == 0 then 0 else HashStep(HashLoop(s[..|s| - 1]), s[|s| - 1] as int)
  }

  function Abs(x: int): int { if x < 0 then -x else x }

  /** `hashString(value)`: non-negative and at most 2^31 (the absolute value
      of the most negative 32-bit integer). */
  function HashString(s: string): (r: int)
    ensures 0 <= r <= TwoTo31
  {
    Abs(HashLoop(s))
  }

  /** JavaScript's `%` on integers: the remainder truncates toward zero, so
      it takes the sign of the dividend (`-7 % 5` is `-2`), unlike Dafny's
      Euclidean `%`. */
  function JsRem(a: int, n: int): (r: int)
    requires n > 0
    ensures -n < r < n
    ensures a >= 0 ==> r >= 0
    ensures a <= 0 ==> r <= 0
    ensures a == JsQuot(a, n) * n + r
  {
    if a >= 0 then a % n else -((-a) % n)
  }

  /** The quotient truncated toward zero, which `JsRem` completes. */
  function JsQuot(a: int, n: int): int
    requires n > 0
  {
    if a >= 0 then a / n else -((-a) / n)
  }

  /** On a non-negative dividend the two remainders agree, so an index taken
      from a non-negative hash is in bounds. */
  lemma JsRemOfNonNegative(a: int, n: int)
    requires a >= 0 && n > 0
    ensures JsRem(a, n) == a % n
    ensures 0 <= JsRem(a, n) < n
  {
  }

  /** On a negative dividend they differ: a negative hash would give a
      negative index. */
  lemma JsRemOfNegative()
    ensures JsRem(-7, 5) == -2 && -7 % 5 == 3
  {
  }

  /** Wrapping commutes with addition, so the step is the textbook
      `hash * 31 + code`, wrapped once. */
  lemma WrapAdd(a: int, b: int)
    ensures ToInt32(ToInt32(a) + b) == ToInt32(a + b)
  {
    var d := ToInt32(a) - a;
    assert d % TwoTo32 == 0;
    var q := d / TwoTo32;
    assert d == q * TwoTo32;
    assert ToInt32(a) + b == (a + b) + q * TwoTo32;
    ModShift(a + b, q);
  }

  lemma ModShift(x: int, q: int)
    ensures (x + q * TwoTo32) % TwoTo32 == x % TwoTo32
  {
  }

  lemma HashStepIsTimes31(h: int, code: int)
    ensures HashStep(h, code) == ToInt32(31 * h + code)
  {
    WrapAdd(h * 32, -h + code);
    assert ToInt32(h * 32) - h + code == ToInt32(h * 32) + (-h + code);
  }
}
