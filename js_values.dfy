/**
 Values as the quiz's browser script sees them in its JSON data: a field can be
 missing, `null`, or present, and the script branches on JavaScript truthiness.
 */
module JsValues {

  datatype Option<+T> = None | Some(value: T)

  /** A string-valued field of a JSON object: missing, `null`, or a string. */
  datatype JsString = Undefined | Null | Str(s: string) {

    /** JavaScript truthiness: only a non-empty string is truthy. */
    predicate Truthy() {
      Str? && s != ""
    }

    /** `x || ''`: the string itself when truthy, otherwise the empty string. */
    function OrEmpty(): (r: string)
      ensures Truthy() ==> r == s
      ensures !Truthy() ==> r == ""
    {
      if Str? then s else ""
    }

    /** What a template literal `${x}` prints for the value. */
    function Render(): string {
      match this
      case Undefined => "undefined"
      case Null => "null"
      case Str(t) => t
    }
  }

  /** JavaScript truthiness of a numeric field: missing, `null` and `0` are falsy. */
  predicate TruthyNumber(n: Option<int>) {
    n.Some? && n.value != 0
  }
}
