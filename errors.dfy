/** The exceptions the pipeline can raise, classified by where they come from.
    The text of each is what `str(e)` gives in the run's failure message; the
    wording of library and server messages is the model's own. */
module Errors {

  datatype FailureKind =
    | DateFormat        // strptime: the text does not match `%Y-%m-%d`
    | DateRange         // strptime: matched, but no such calendar day
    | DateOverflow      // date + timedelta(days=1) past 9999-12-31
    | InvalidJson       // response.json() on a body that is not JSON
    | MalformedDocument // the decoded body has no `.get` (not an object)
    | MalformedFeature  // a feature without properties, geometry or three coordinates
    | ConnectionFailed  // psycopg2.connect raised
    | UndefinedTable    // psycopg2.errors.UndefinedTable
    | FileNotFound      // open(csv_path) on a path that was never written
    | NotNullViolation  // a NULL written to a NOT NULL column
    | ValueTooLong      // text longer than its VARCHAR column
    | InvalidDateLiteral // Postgres could not read a date bound of the range

  datatype Failure = Failure(kind: FailureKind, text: string)
}
