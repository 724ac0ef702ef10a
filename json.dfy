/** JSON values as the CMS delivers them, with JavaScript truthiness. */
module Json {
  import opened Wrappers

  /** Numbers are integers here; the model has no floating point (and so no NaN). */
  datatype Json =
    | JNull
    | JBool(b: bool)
    | JNum(n: int)
    | JStr(s: string)
    | JArr(items: seq<Json>)
    | JObj(fields: map<string, Json>)

  /** A JSON object; a key that is not in the map is `undefined`. */
  type Object = map<string, Json>

  /** JavaScript truthiness: `null`, `false`, `0` and `""` are falsy, every array and object is truthy. */
  predicate Truthy(v: Json) {
    match v
    case JNull => false
    case JBool(b) => b
    case JNum(n) => n != 0
    case JStr(s) => s != ""
    case JArr(_) => true
    case JObj(_) => true
  }

  /** Property read `o.k`. */
  function Get(o: Object, k: string): Option<Json> {
    if k in o then Some(o[k]) else None
  }

  /** `o.k` used as a condition: an absent property is `undefined`, which is falsy. */
  predicate FieldTruthy(o: Object, k: string) {
    k in o && Truthy(o[k])
  }

  /** `o.k === s` for a string literal `s`. */
  predicate FieldIs(o: Object, k: string, s: string) {
    k in o && o[k] == JStr(s)
  }

  /** The object literal `{...base, ...over}`: the keys of both, the later one winning. */
  function Spread(base: Object, over: Object): Object {
    base + over
  }

  /** A typed optional string used as a condition (`s && ...`, `s || d`): present and non-empty. */
  predicate NonEmpty(s: Option<string>) {
    s.Some? && s.value != ""
  }

  /** `s || d` for an optional string. */
  function StrOr(s: Option<string>, d: string): string {
    if NonEmpty(s) then s.value else d
  }

  /** The optional string shown by `{s && <p>{s}</p>}`: present only when truthy. */
  function WhenNonEmpty(s: Option<string>): Option<string> {
    if NonEmpty(s) then s else None
  }
}
