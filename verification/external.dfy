/**
 * The library facilities the application calls but whose behaviour is not
 * part of this model: moment.js (and `new Date`) and `localeCompare`. Each
 * is a function value handed to the operations that use it, so every
 * property proved below holds whatever those libraries compute, unless a
 * lemma states an assumption about them.
 */
module External {
  import opened Base
  import opened Json

  /** The uses of moment.js and `new Date` in the application. */
  datatype Moment = Moment(
    /** `moment(v)` / `new Date(v)`: the instant in milliseconds, `None` when invalid (NaN). */
    parse: Value -> Option<int>,
    /** `moment(v, moment.ISO_8601, strict)`: the instant when `v` is an ISO-8601 date. */
    parseIso: (Value, bool) -> Option<int>,
    /** `moment(s, fmt, true).isValid()`: `s` is a date written exactly in `fmt`. */
    parseFormat: (string, string) -> bool,
    /** `moment(v).format(fmt)`; `"Invalid date"` when `v` does not parse. */
    format: (Value, string) -> string)

  /** `a.localeCompare(b)`: negative, zero or positive. */
  type Collator = (string, string) -> int

  /**
   * A collation is a total preorder on strings, as `Intl.Collator`
   * guarantees: `a` sorts no later than `b` exactly when `b` sorts no
   * earlier than `a`, and "no later than" is transitive.
   */
  ghost predicate CollationOrder(collate: Collator)
  {
    && (forall a, b :: collate(a, b) <= 0 <==> collate(b, a) >= 0)
    && (forall a, b, c :: collate(a, b) <= 0 && collate(b, c) <= 0 ==> collate(a, c) <= 0)
  }
}
