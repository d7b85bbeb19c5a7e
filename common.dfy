/** Shared vocabulary: optional and failing results, the exceptions of the
  * C# code, bytes, and the fixed-width integer conversions of C# and C. */
module Common {

  datatype Option<T> = None | Some(value: T)

  /** The exceptions the C# code can raise, named after the .NET type. */
  datatype Error =
    | FormatError          // FormatException
    | OverflowError        // OverflowException
    | ArgumentNull         // ArgumentNullException
    | ArgumentOutOfRange   // ArgumentOutOfRangeException
    | Argument             // ArgumentException
    | ArrayTypeMismatch    // ArrayTypeMismatchException
    | NullReference        // NullReferenceException
    | InvalidOperation     // InvalidOperationException (empty Queue.Dequeue)
    | NotImplemented       // NotImplementedException
    | InvalidCast          // InvalidCastException
    | XmlParseError        // XmlException from XDocument.Parse
    | Aggregate            // AggregateException from Task.Wait

  datatype Result<T> = Ok(value: T) | Err(error: Error)

  type byte = x: int | 0 <= x < 256

  const SHORT_MIN: int := -0x8000
  const SHORT_MAX: int := 0x7fff
  const INT_MIN: int := -0x8000_0000
  const INT_MAX: int := 0x7fff_ffff

  predicate IsShort(x: int) { SHORT_MIN <= x <= SHORT_MAX }

  /** C# `(short)x`: keep the low 16 bits and read them as two's complement. */
  function ToShort(x: int): (r: int)
    ensures IsShort(r)
    ensures (r - x) % 0x1_0000 == 0
    ensures IsShort(x) ==> r == x
  {
    var low := x % 0x1_0000;
    if low <= SHORT_MAX then low else low - 0x1_0000
  }

  /** C / C# reinterpretation of an unsigned 32-bit value as `int`. */
  function ToInt32(u: nat): (r: int)
    requires u < 0x1_0000_0000
    ensures INT_MIN <= r <= INT_MAX
    ensures r < 0 <==> u >= 0x8000_0000
    ensures r % 0x1_0000_0000 == u
  {
    if u <= INT_MAX then u else u - 0x1_0000_0000
  }

  /** C# `/` on `int`: the quotient truncated toward zero. */
  function TruncDiv(a: int, b: int): (q: int)
    requires b > 0
    ensures a >= 0 ==> q == a / b
    ensures a < 0 ==> q == -((-a) / b)
  {
    if a >= 0 then a / b else -((-a) / b)
  }

  function Min(a: int, b: int): (m: int)
    ensures m <= a && m <= b && (m == a || m == b)
  {
    if a < b then a else b
  }
}
