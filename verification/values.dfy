/** Loosely typed values as they travel between the client and the remote
    shipping service: optional ("possibly null") values and the opaque
    rate records the service hands back. */
module Values {

  /** A PHP value that may be null. `Some` is what `isset` accepts. */
  datatype Option<+T> = None | Some(value: T) {

    /** The value, or `default` when null (PHP `isset($x) ? $x : default`). */
    function GetOr(default: T): (r: T)
      ensures Some? ==> r == value
      ensures None? ==> r == default
    {
      match this
      case Some(v) => v
      case None => default
    }
  }

  /** A field value of a rate record. Amounts and weights are treated as
      opaque numbers that are passed through unchanged. */
  datatype Field =
    | Text(text: string)
    | Number(number: real)
    | Flag(flag: bool)
    | Group(members: map<string, Field>)

  /** A rate record (the service's `Rate` object, or the array obtained from
      it by an `(array)` cast): field name to value. */
  type Rate = map<string, Field>

  /** The sub-structure the client strips from every returned rate. */
  const ADD_ONS: string := "AddOns"

  /** The field the label issuer stamps the origin ZIP code into. */
  const FROM_ZIP_CODE: string := "FromZIPCode"
}
