/** JavaScript value shapes shared by every part of the storefront model.

    `null` and `undefined` are both represented by `Null`: the storefront
    never distinguishes them (it only ever tests them for truthiness or
    reads them through optional chaining).
 */
module Values {

  /** A value that may be `null`/`undefined`. */
  datatype Maybe<+T> = Null | Some(value: T) {

    /** `x ?? d`, and `x || d` when every present value is truthy. */
    function GetOr(default: T): T {
      match this
      case Some(v) => v
      case Null => default
    }
  }

  /** JavaScript truthiness of a string: only the empty string is falsy. */
  predicate TruthyText(s: string) {
    s != []
  }

  /** Truthiness of an optional string (`null`, `undefined` and `""` are falsy). */
  predicate Truthy(m: Maybe<string>) {
    m.Some? && TruthyText(m.value)
  }

  /** Truthiness of an optional number (`null`, `undefined` and `0` are falsy). */
  predicate TruthyNumber(m: Maybe<int>) {
    m.Some? && m.value != 0
  }

  /** `a || b` over optional strings: the first operand when it is truthy, else the second. */
  function OrElse(a: Maybe<string>, b: Maybe<string>): (r: Maybe<string>)
    ensures Truthy(a) ==> r == a
    ensures !Truthy(a) ==> r == b
    ensures Truthy(r) <==> Truthy(a) || Truthy(b)
  {
    if Truthy(a) then a else b
  }
}
