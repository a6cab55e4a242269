/** The values the adapter hands to the setter, and the default-value
    fallback of `Knowledge::Adapters::Ssm#extract_value`. */
module Values {

  /** A Ruby object as `extract_value` inspects it: `nil`, `true`/`false`,
      a number (an integer is enough to decide `to_f == self`), a string or
      symbol (both answer `empty?`), or a collection (an Array or Hash, which
      also answer `empty?`). */
  datatype Value =
    | Nil
    | Bool(b: bool)
    | Num(n: int)
    | Str(s: string)
    | Coll(items: seq<Value>)

  /** Ruby truthiness: everything except `nil` and `false`. */
  predicate Truthy(v: Value) {
    !(v.Nil? || v == Bool(false))
  }

  /** `v.respond_to?(:to_f) && v.to_f == v`: `nil` and strings answer `to_f`,
      but the resulting Float never equals `nil` or a String, so only a
      number passes. */
  predicate NumericSelfEqual(v: Value) {
    v.Num?
  }

  /** `v.respond_to?(:empty?) && v.empty?` */
  predicate Empty(v: Value) {
    match v
    case Str(s) => |s| == 0
    case Coll(items) => |items| == 0
    case _ => false
  }

  /** What the fallback policy calls blank: `nil`, or an empty string or
      collection. */
  predicate Blank(v: Value) {
    v.Nil? || Empty(v)
  }

  /** The guard-clause ladder of `extract_value`: no default keeps the raw
      value; booleans and numbers are kept; `nil` or empty takes the
      default; anything else is kept. `Nil` as `default` is "no default". */
  function ExtractValue(initial: Value, default: Value): (r: Value)
    // no default declared: the raw value, even nil or empty
    ensures default.Nil? ==> r == initial
    // a boolean or a number is never replaced, false and 0 included
    ensures initial.Bool? || initial.Num? ==> r == initial
    // a declared default replaces exactly the blank values
    ensures !default.Nil? && Blank(initial) ==> r == default
    ensures !Blank(initial) ==> r == initial
  {
    if default.Nil? then initial
    else if initial == Bool(Truthy(initial)) then initial
    else if NumericSelfEqual(initial) then initial
    else if initial.Nil? || Empty(initial) then default
    else initial
  }
}
