/** Shared vocabulary: optional values, results, timestamps and the rounding
    that JavaScript's Math.round performs on a quotient. */
module Base {

  datatype Option<T> = None | Some(value: T)

  datatype Result<T, E> = Ok(value: T) | Err(error: E)

  /** Identifiers of stored users (MongoDB ObjectIds in the source). */
  type UserId = nat

  /** Instants are JavaScript timestamps: integer milliseconds since the epoch. */
  type Timestamp = int

  /** Milliseconds in a day, written as in the source: 24 * 60 * 60 * 1000. */
  const DayMs: int := 24 * 60 * 60 * 1000

  /** `Math.round(a / b)` for a positive divisor: the integer nearest to a/b,
      halves rounded up. */
  function RoundDiv(a: int, b: int): (r: int)
    requires b > 0
    ensures 2 * b * r <= 2 * a + b < 2 * b * r + 2 * b
  {
    var q := (2 * a + b) / (2 * b);
    assert 2 * a + b == 2 * b * q + (2 * a + b) % (2 * b);
    q
  }

  /** `total / count` rounded, guarded by `count > 0 ? … : 0`: an empty
      collection averages to 0 and never divides by zero. */
  function RoundedAverage(total: int, count: nat): (r: int)
    ensures count == 0 ==> r == 0
    ensures count > 0 ==> 2 * count * r <= 2 * total + count < 2 * count * r + 2 * count
  {
    if count > 0 then RoundDiv(total, count) else 0
  }

  /** `a` is `b` with some elements left out and the rest in their order. */
  predicate IsSubsequence<T(==)>(a: seq<T>, b: seq<T>)
    decreases |b|
  {
    a == [] || (b != [] && ((a[0] == b[0] && IsSubsequence(a[1..], b[1..])) || IsSubsequence(a, b[1..])))
  }

  /** JavaScript truthiness of a string value. */
  predicate Truthy(s: string) {
    s != ""
  }

  /** `message || fallback` where `message` may be absent: the text shown
      is one of the two, a non-empty server message takes precedence, and
      with a non-empty fallback something is always shown. */
  function MessageOr(message: Option<string>, fallback: string): (r: string)
    ensures r == fallback || (message.Some? && r == message.value)
    ensures message.Some? && message.value != "" ==> r == message.value
    ensures fallback != "" ==> r != ""
  {
    match message
    case Some(m) => if m != "" then m else fallback
    case None => fallback
  }
}
