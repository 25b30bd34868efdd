/** The few pieces of `java.lang` behaviour the core relies on: blank strings,
    prefixes, integer-to-text conversion and the exceptions it throws. */
module JavaLang {

  /** `Character.isWhitespace`: the Unicode space separators other than the
      no-break spaces, plus the ASCII controls it names. */
  predicate IsWhitespace(c: char) {
    var n := c as int;
    n == 0x20 || 0x09 <= n <= 0x0D || 0x1C <= n <= 0x1F
    || n == 0x1680 || 0x2000 <= n <= 0x2006 || 0x2008 <= n <= 0x200A
    || n == 0x2028 || n == 0x2029 || n == 0x205F || n == 0x3000
  }

  /** `String.isBlank`: empty or whitespace only. */
  predicate IsBlank(s: string) {
    forall i :: 0 <= i < |s| ==> IsWhitespace(s[i])
  }

  /** `String.startsWith`. */
  predicate StartsWith(s: string, prefix: string) {
    |prefix| <= |s| && s[..|prefix|] == prefix
  }

  /** `Integer.toString` of a non-negative number. */
  function NatToString(n: nat): (r: string)
    ensures |r| > 0
  {
    if n < 10 then [Digit(n)] else NatToString(n / 10) + [Digit(n % 10)]
  }

  function Digit(d: nat): char
    requires d < 10
  {
    "0123456789"[d]
  }

  /** `Integer.toString`. */
  function IntToString(n: int): string {
    if n < 0 then "-" + NatToString(-n) else NatToString(n)
  }

  /** A `java.util.UUID`, by its text. */
  type Uuid = string

  /** A `java.time.Instant`, as an opaque clock reading. */
  type Instant = int

  /** A `java.math.BigDecimal`: `unscaled` times ten to the power `-scale`.
      Its `equals` compares both parts, so 1.0 and 1.00 are different values. */
  datatype BigDecimal = BigDecimal(unscaled: int, scale: int)

  function Pow10(n: nat): (r: nat)
    ensures r > 0
  {
    if n == 0 then 1 else 10 * Pow10(n - 1)
  }

  /** The number a `BigDecimal` stands for. */
  ghost function Magnitude(d: BigDecimal): real {
    if d.scale >= 0 then d.unscaled as real / Pow10(d.scale) as real
    else (d.unscaled * Pow10(-d.scale)) as real
  }

  /** `BigDecimal.signum`. */
  function Signum(d: BigDecimal): (r: int)
    ensures r == -1 || r == 0 || r == 1
  {
    if d.unscaled > 0 then 1 else if d.unscaled < 0 then -1 else 0
  }

  /** `signum` is the sign of the number, whatever the scale. */
  lemma SignumMagnitude(d: BigDecimal)
    ensures Signum(d) > 0 <==> Magnitude(d) > 0.0
  {
    if d.scale >= 0 {
      var p := Pow10(d.scale) as real;
      assert Magnitude(d) * p == d.unscaled as real;
    } else {
      var p := Pow10(-d.scale);
      assert d.unscaled > 0 ==> d.unscaled * p > 0;
      assert d.unscaled <= 0 ==> d.unscaled * p <= 0;
    }
  }

  /** `BigDecimal.valueOf(long)`. */
  function ValueOf(n: int): (r: BigDecimal)
    ensures Magnitude(r) == n as real
  {
    BigDecimal(n, 0)
  }

  /** `BigDecimal.multiply`: the exact product, with the sum of the scales. */
  function Multiply(a: BigDecimal, b: BigDecimal): (r: BigDecimal)
    ensures r.scale == a.scale + b.scale
  {
    BigDecimal(a.unscaled * b.unscaled, a.scale + b.scale)
  }

  /** Multiplying by a whole number keeps the scale and scales the number. */
  lemma MultiplyWhole(a: BigDecimal, n: int)
    ensures Multiply(a, ValueOf(n)).scale == a.scale
    ensures Magnitude(Multiply(a, ValueOf(n))) == Magnitude(a) * n as real
  {
    var r := Multiply(a, ValueOf(n));
    if a.scale >= 0 {
      var p := Pow10(a.scale) as real;
      calc {
        Magnitude(r);
        (a.unscaled * n) as real / p;
        (a.unscaled as real * n as real) / p;
        (a.unscaled as real / p) * n as real;
      }
    } else {
      var p := Pow10(-a.scale);
      assert a.unscaled * n * p == a.unscaled * p * n;
    }
  }

  /** The exception classes the core throws or catches. */
  datatype ErrorKind =
    | IllegalArgument          // java.lang.IllegalArgumentException
    | IllegalState             // java.lang.IllegalStateException
    | InsufficientStock        // inventory InsufficientStockException
    | InvalidStockLevel        // StockLevel's private InvalidStockLevelException
    | InvalidOrderState        // order InvalidOrderStateException
    | InvalidOrderItem         // OrderItem's private InvalidOrderItemException
    | OptimisticLockingFailure // the persistence layer's stale-version failure
    | Runtime                  // a plain java.lang.RuntimeException
    | NullPointer              // java.lang.NullPointerException

  /** A thrown exception: its class and its `getMessage()`. */
  datatype Error = Error(kind: ErrorKind, message: string)
}
