/** Java's fixed-width integers over Dafny's unbounded `int`: the ranges of
    `long` and `int`, truncating division, `Math.abs`, `Math.multiplyExact`,
    the silent wrap-around of `int` arithmetic, and the decimal parsers. */
module JavaNum {
  import opened Wrappers
  import opened JavaText

  const MIN_LONG: int := -0x8000_0000_0000_0000
  const MAX_LONG: int := 0x7FFF_FFFF_FFFF_FFFF
  const MIN_INT: int := -0x8000_0000
  const MAX_INT: int := 0x7FFF_FFFF

  /** A Java `long`. */
  type Long = x: int | MIN_LONG <= x <= MAX_LONG

  /** A Java `int`. */
  type Int32 = x: int | MIN_INT <= x <= MAX_INT

  predicate InLongRange(x: int) {
    MIN_LONG <= x <= MAX_LONG
  }

  predicate InIntRange(x: int) {
    MIN_INT <= x <= MAX_INT
  }

  function Abs(x: int): nat {
    if x < 0 then -x else x
  }

  /** Java's `/` on integers: the quotient truncated toward zero. */
  function JavaDiv(a: int, b: int): (q: int)
    requires b != 0
    ensures Abs(q) * Abs(b) <= Abs(a) < (Abs(q) + 1) * Abs(b)
    ensures q != 0 ==> ((q > 0) <==> ((a > 0) == (b > 0)))
  {
    var m := Abs(a) / Abs(b);
    if (a >= 0) == (b > 0) then m else -m
  }

  /** `Math.abs(long)`: `Long.MIN_VALUE` has no positive counterpart and is
      returned unchanged. */
  function JavaAbsLong(x: Long): (r: Long)
    ensures x != MIN_LONG ==> r == Abs(x)
    ensures x == MIN_LONG ==> r == MIN_LONG
  {
    if x == MIN_LONG then MIN_LONG else Abs(x)
  }

  /** `int` arithmetic keeps the low 32 bits of the exact value. */
  function WrapInt(x: int): (r: Int32)
    ensures InIntRange(x) ==> r == x
    ensures (r - x) % 0x1_0000_0000 == 0
  {
    (x - MIN_INT) % 0x1_0000_0000 + MIN_INT
  }

  datatype ArithmeticError = LongOverflow

  /** `Math.multiplyExact(long, long)`: the exact product, or an
      `ArithmeticException` when it does not fit in a `long`. */
  function MultiplyExact(a: Long, b: Long): (r: Result<Long, ArithmeticError>)
    ensures r.Ok? <==> InLongRange(a * b)
    ensures r.Ok? ==> r.value == a * b
  {
    if InLongRange(a * b) then Ok(a * b) else Err(LongOverflow)
  }

  /** Text of the shape `^-?\d+$` (ASCII digits only). */
  predicate IsSignedDigits(s: string) {
    if |s| > 0 && s[0] == '-' then |s| > 1 && AllDigits(s[1..])
    else |s| > 0 && AllDigits(s)
  }

  /** The mathematical value of text of the shape `^-?\d+$`. */
  function SignedDigitsValue(s: string): int
    requires IsSignedDigits(s)
  {
    if s[0] == '-' then 0 - DigitsValue(s[1..]) as int else DigitsValue(s)
  }

  datatype NumberFormatError = NotANumber | OutOfRange

  /** `Long.parseLong` on text already matched by `^-?\d+$`: fails exactly when
      the value is outside the `long` range. */
  function ParseLong(s: string): (r: Result<Long, NumberFormatError>)
    requires IsSignedDigits(s)
    ensures r.Ok? <==> InLongRange(SignedDigitsValue(s))
    ensures r.Ok? ==> r.value == SignedDigitsValue(s)
  {
    var v := SignedDigitsValue(s);
    if InLongRange(v) then Ok(v) else Err(OutOfRange)
  }

  /** `Integer.parseInt`: an optional `+` or `-`, then at least one digit, and
      a value inside the `int` range; anything else is a `NumberFormatException`. */
  function ParseInt(s: string): (r: Result<Int32, NumberFormatError>)
    ensures r.Ok? ==> |s| > 0 && (s[0] == '+' || s[0] == '-' || IsDigit(s[0]))
    ensures r.Ok? ==> InIntRange(r.value)
    ensures r.Ok? && AllDigits(s) ==> r.value == DigitsValue(s)
    ensures AllDigits(s) && |s| > 0 && DigitsValue(s) <= MAX_INT ==> r.Ok?
  {
    if |s| == 0 then Err(NotANumber)
    else
      var negative := s[0] == '-';
      var digits := if s[0] == '-' || s[0] == '+' then s[1..] else s;
      if |digits| == 0 || !AllDigits(digits) then Err(NotANumber)
      else
        var v := if negative then 0 - DigitsValue(digits) as int else DigitsValue(digits);
        if InIntRange(v) then Ok(v) else Err(OutOfRange)
  }
}
