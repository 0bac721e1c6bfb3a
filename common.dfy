/** Types and helpers shared by every layer of the backend: nullable values,
    identifiers, instants and the two `String.valueOf` conversions the
    services rely on. */
module Common {

  /** A Java reference that may be null: `None` is null. */
  datatype Option<+T> = None | Some(value: T)

  /** Primary keys: the `Long` identifiers of Task, User and Role. */
  type Id = int

  /** A `LocalDateTime` or `Instant`, counted in nanoseconds on one fixed scale. */
  type Time = int

  /** `plusHours(1)` on this scale. */
  const NanosPerHour: int := 3_600_000_000_000

  /** The merge rule of the update services: a non-null incoming value
      replaces the stored one, a null one keeps it. */
  function NonNullOr<T>(incoming: Option<T>, current: Option<T>): (r: Option<T>)
    ensures incoming.Some? ==> r == incoming
    ensures incoming.None? ==> r == current
  {
    match incoming
    case Some(_) => incoming
    case None => current
  }

  /** `String.valueOf(Object)`: a null reference prints as "null". */
  function ValueOf(v: Option<string>): (s: string)
    ensures v.Some? ==> s == v.value
    ensures v.None? ==> s == "null"
  {
    if v.Some? then v.value else "null"
  }

  function DigitChar(d: int): char
    requires 0 <= d < 10
  {
    "0123456789"[d]
  }

  function NaturalText(n: nat): string
  {
    if n < 10 then [DigitChar(n)] else NaturalText(n / 10) + [DigitChar(n % 10)]
  }

  /** The decimal text of a `long`, as string concatenation and
      `String.valueOf(long)` produce it. */
  function DecimalText(n: int): string
  {
    if n < 0 then "-" + NaturalText(-n) else NaturalText(n)
  }
}
