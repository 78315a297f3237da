/** The errors the leapseconds package returns: the two sentinel errors of
    main.go (both wrapping ErrParsing), the strconv/time errors it wraps with
    the offending field, transport failures, and the one run-time panic the
    historical file parser can raise. */
module Errors {

  /** The field a wrapped parse error names ("parsing day field containing ..."). */
  datatype Field = Mjd | Day | Month | Year | TaiOffset | LastDate | NextDate

  /** What the wrapped library call reported: strconv.ErrSyntax, strconv.ErrRange,
      or a time.Parse layout mismatch. */
  datatype Cause = Syntax | Range | Layout

  datatype Error =
      /** ErrInvalidScheduledEntry: the scheduled line did not split into 3 fields. */
    | InvalidScheduledEntry
      /** ErrInvalidLeapSecondData: a historical line did not have 5 fields. */
    | InvalidLeapSecondData
      /** errors.Wrapf(err, "parsing <field> field containing <raw>"). */
    | FieldParse(field: Field, raw: string, cause: Cause)
      /** Anything the HTTP transport reports (a bad request, a failed connection,
          a cancelled context); the response status is never checked. */
    | Transport(reason: string)
      /** Not an error value in the source: `items[index]` out of range panics.
          The model carries it as an outcome that no caller recovers from. */
    | IndexPanic(index: nat)

  /** errors.Is(e, ErrParsing): only the two sentinels wrap ErrParsing; the
      field errors wrap the strconv or time error instead. */
  predicate IsParsing(e: Error) {
    e.InvalidScheduledEntry? || e.InvalidLeapSecondData?
  }
}
