/** Request values as the route handlers see them after JSON body parsing, and the two
    tests the handlers apply to them: JavaScript truthiness (`if (title)`) and the
    emptiness test of express-validator (`not().isEmpty()`). */
module Http {
  import Text
  import opened Wrappers

  /** One field of a JSON request body.
      - Absent: the key is missing (`undefined`);
      - Text: a JSON string;
      - List: a JSON array of strings;
      - Scalar: a JSON number, boolean or null; `shown` is the text the validators see
        (`String(v)`, and the empty text for null), `truthy` its JavaScript truthiness. */
  datatype Field =
    | Absent
    | Text(s: string)
    | List(items: seq<string>)
    | Scalar(shown: string, truthy: bool)

  /** JavaScript truthiness: an empty string and `undefined` are falsy, every array is truthy. */
  predicate Truthy(f: Field) {
    match f
    case Absent => false
    case Text(s) => s != ""
    case List(_) => true
    case Scalar(_, t) => t
  }

  /** The field fails `not().isEmpty()`. express-validator reads `undefined` and `null` as the
      empty text and runs the test on each element of an array, so an array fails exactly when
      one of its elements is empty (and the empty array passes). */
  predicate Blank(f: Field) {
    match f
    case Absent => true
    case Text(s) => s == ""
    case List(xs) => exists i :: 0 <= i < |xs| && xs[i] == ""
    case Scalar(shown, _) => shown == ""
  }

  /** `String(v)`, the conversion the create route applies to non-array tags;
      an array converts to its elements joined by commas. */
  function JsString(f: Field): string {
    match f
    case Absent => "undefined"
    case Text(s) => s
    case List(xs) => Text.Join(xs, ",")
    case Scalar(shown, _) => shown
  }

  /** The value a Mongoose `String` path receives from a request field, or None when the
      document cannot be saved with it: the field is missing, or it is an array, which does
      not cast to a string. */
  function StoredText(f: Field): Option<string> {
    match f
    case Text(s) => Some(s)
    case Scalar(shown, _) => Some(shown)
    case _ => None
  }

  /** One entry of express-validator's `errors.array()`: the field's path and its message. */
  datatype FieldError = FieldError(path: string, msg: string)

  /** express-validator's message for a validator given none. */
  const DefaultMessage := "Invalid value"
}
