/** A value that may be absent: a JSON field that is `undefined`, a header that was not sent,
    a lookup that found nothing, a token that did not verify. */
module Base {
  datatype Option<+T> = None | Some(value: T) {
    function GetOr(default: T): T {
      match this
      case Some(v) => v
      case None => default
    }
  }
}
