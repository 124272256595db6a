/** Java language facts shared by the whole model: nullable references, the
    exceptions the core throws, and the fixed-width integers it computes with. */
module JavaLang {

  /** A reference that may be null. */
  datatype Option<+T> = None | Some(value: T) {
    function GetOr(default: T): T {
      if Some? then value else default
    }
  }

  /** The exceptions thrown by the core. */
  datatype Error =
    | IllegalArgument   // java.lang.IllegalArgumentException
    | IllegalState      // java.lang.IllegalStateException
    | NullPointer       // java.lang.NullPointerException
    | IndexOutOfBounds  // java.lang.StringIndexOutOfBoundsException

  /** The outcome of a call that either returns a value or throws. */
  datatype Result<+T> = Ok(value: T) | Fail(error: Error)

  const SHORT_MIN: int := -0x8000
  const SHORT_MAX: int := 0x7FFF
  const INT_MIN: int := -0x8000_0000
  const INT_MAX: int := 0x7FFF_FFFF

  predicate IsShort(x: int) { SHORT_MIN <= x <= SHORT_MAX }
  predicate IsInt(x: int) { INT_MIN <= x <= INT_MAX }

  /** Java `short` and `int`. */
  type Int16 = x: int | SHORT_MIN <= x <= SHORT_MAX
  type Int32 = x: int | INT_MIN <= x <= INT_MAX

  /** Two's-complement wrap-around of Java `int` arithmetic. */
  function Wrap32(x: int): (r: Int32)
    ensures IsInt(x) ==> r == x
    ensures INT_MAX < x <= INT_MAX + 0x1_0000_0000 ==> r == x - 0x1_0000_0000
    ensures INT_MIN - 0x1_0000_0000 <= x < INT_MIN ==> r == x + 0x1_0000_0000
  {
    (x - INT_MIN) % 0x1_0000_0000 + INT_MIN
  }

  /** The `(short)` cast of a Java `int`. */
  function Wrap16(x: int): (r: Int16)
    ensures IsShort(x) ==> r == x
    ensures (x - r) % 0x1_0000 == 0
  {
    (x - SHORT_MIN) % 0x1_0000 + SHORT_MIN
  }

  /** Adding a Java `int` to a `short` value: the wrapped sum is a `short` exactly
      when the true sum is, and then the two agree. So a 16-bit range check placed
      after the `int` addition sees through any overflow. */
  lemma WrappedSumRange(s: int, a: int)
    requires IsShort(s) && IsInt(a)
    ensures IsShort(Wrap32(s + a)) <==> IsShort(s + a)
    ensures IsShort(s + a) ==> Wrap32(s + a) == s + a
  {
  }
}
