/**
 * What the route handlers read from a request: fields of the JSON body, with
 * JavaScript truthiness made explicit.
 */
module Http {

  /** A field of a parsed JSON body. `Missing` is an absent key (`undefined`).
      An array is kept as the list of strings the handler forwards. */
  datatype Field = Missing | Null | Bool(b: bool) | Num(n: int) | Str(s: string) | Arr(items: seq<string>) | Obj
  {
    /** `!!field` in JavaScript. */
    predicate Truthy() {
      match this
      case Missing => false
      case Null => false
      case Bool(b) => b
      case Num(n) => n != 0
      case Str(s) => s != ""
      case Arr(_) => true
      case Obj => true
    }
  }
}
