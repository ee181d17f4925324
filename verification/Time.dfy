/** Time values as the contracts package defines them.  A date is its day number (days since
    1970-01-01), so comparing two dates is comparing two numbers; a date never becomes an instant. */
module Time {
  const DAY_MS: int := 86_400_000

  datatype Basis = OfficialExplicit | DeterministicDerived | OfficialEstimate | Unresolved

  datatype TimeValue =
    | DateTime(utcMs: int, zone: string, raw: string, basis: Basis)
    | DateOnly(day: int, zone: string, raw: string, basis: Basis)
    | Unknown(zone: string, raw: string, basis: Basis)

  /** Same precision and same instant or date; zone, wording and basis are ignored. */
  predicate SameClock(a: TimeValue, b: TimeValue) {
    match (a, b)
    case (DateTime(x, _, _, _), DateTime(y, _, _, _)) => x == y
    case (DateOnly(x, _, _, _), DateOnly(y, _, _, _)) => x == y
    case (Unknown(_, _, _), Unknown(_, _, _)) => true
    case _ => false
  }

  /** Only explicit or derived instants may carry a reminder. */
  predicate ExactAlarmTime(t: TimeValue) {
    t.DateTime? && (t.basis == OfficialExplicit || t.basis == DeterministicDerived)
  }

  datatype Precision = PDateTime | PDate | PUnknown

  /** The time columns of a stored milestone. */
  datatype TimeColumns = TimeColumns(
    exact: TimeCell, date: TimeCell, zone: string, raw: string, basis: Basis, precision: Precision)

  datatype TimeCell = Null | Value(n: int)

  function ToColumns(t: TimeValue): TimeColumns {
    match t
    case DateTime(ms, zone, raw, basis) => TimeColumns(Value(ms), Null, zone, raw, basis, PDateTime)
    case DateOnly(day, zone, raw, basis) => TimeColumns(Null, Value(day), zone, raw, basis, PDate)
    case Unknown(zone, raw, basis) => TimeColumns(Null, Null, zone, raw, basis, PUnknown)
  }

  /** Reading the columns back fails when the payload the precision announces is missing. */
  predicate Readable(c: TimeColumns) {
    (c.precision == PDateTime ==> c.exact.Value?) && (c.precision == PDate ==> c.date.Value?)
  }

  function FromColumns(c: TimeColumns): TimeValue
    requires Readable(c)
  {
    match c.precision
    case PDateTime => DateTime(c.exact.n, c.zone, c.raw, c.basis)
    case PDate => DateOnly(c.date.n, c.zone, c.raw, c.basis)
    case PUnknown => Unknown(c.zone, c.raw, c.basis)
  }

  lemma ColumnsRoundTrip(t: TimeValue)
    ensures Readable(ToColumns(t)) && FromColumns(ToColumns(t)) == t
  {
  }
}
