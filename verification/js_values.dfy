/** The JavaScript values a use-case payload can hold, with the two
    operators the payload checks use: truthiness (`!x`) and `typeof`. */
module JsValues {

  /** The claims a token carries: `{ username, id }`. */
  datatype Identity = Identity(username: JsString, id: JsString)

  /** A JavaScript string. A compact JWT is kept in decoded form: the
      identity it carries, the key its signature was made with and the
      `iat` (issued-at, in seconds) claim the JWT library adds. Any other
      string is plain text. */
  datatype JsString =
    | Plain(text: string)
    | Signed(payload: Identity, key: string, issuedAt: int)

  /** A property value of a payload object. Numbers are integers. */
  datatype JsValue =
    | Undefined
    | Null
    | Bool(b: bool)
    | Num(n: int)
    | Str(s: JsString)
    | Object

  /** A payload object; an absent property reads as `undefined`. */
  type Payload = map<string, JsValue>

  function Prop(payload: Payload, name: string): JsValue {
    if name in payload then payload[name] else Undefined
  }

  /** The empty string. A JWT is never empty: it has three segments. */
  predicate IsEmpty(s: JsString) {
    s == Plain("")
  }

  /** JavaScript's ToBoolean, so `!v` is `!Truthy(v)`. */
  predicate Truthy(v: JsValue) {
    match v
    case Undefined => false
    case Null => false
    case Bool(b) => b
    case Num(n) => n != 0
    case Str(s) => !IsEmpty(s)
    case Object => true
  }

  /** JavaScript's `typeof` operator. */
  function TypeOf(v: JsValue): string {
    match v
    case Undefined => "undefined"
    case Null => "object"
    case Bool(_) => "boolean"
    case Num(_) => "number"
    case Str(_) => "string"
    case Object => "object"
  }

  /** What every payload check of the core demands of a field. */
  predicate IsNonEmptyString(v: JsValue) {
    v.Str? && !IsEmpty(v.s)
  }

  /** The falsy values of the model, listed. */
  const Falsy: set<JsValue> := {Undefined, Null, Bool(false), Num(0), Str(Plain(""))}

  /** Truthiness agrees with the list of falsy values. */
  lemma FalsyValues(v: JsValue)
    ensures !Truthy(v) <==> v in Falsy
  {
  }

  /** A field passes `!v` and `typeof v !== 'string'` exactly when it is a
      non-empty string. */
  lemma TruthyStringIsNonEmptyString(v: JsValue)
    ensures (Truthy(v) && TypeOf(v) == "string") <==> IsNonEmptyString(v)
  {
  }
}
