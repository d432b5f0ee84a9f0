/** The JavaScript values the background engine reads from settings, stored
    snapshots and messages, with the conversions it applies to them. */
module JsValues {
  import opened Decimal

  datatype Option<+T> = None | Some(value: T)

  /** The outcome of a call that may throw: its value, or the thrown error's message. */
  datatype Result<+T> = Ok(value: T) | Err(message: string)

  /** A JavaScript value as it can appear in a setting or a message. Numbers
      are integers: every number the engine stores or compares is one. */
  datatype JsValue = Undefined | Null | Bool(b: bool) | Number(n: int) | Str(s: string)

  /** JavaScript truthiness, as in `if (prefs.get('notifSound'))`. */
  predicate Truthy(v: JsValue) {
    match v
    case Undefined => false
    case Null => false
    case Bool(b) => b
    case Number(n) => n != 0
    case Str(s) => s != ""
  }

  /** `String(v)`, which template literals and `parseInt` apply to a value. */
  function ToJsString(v: JsValue): string {
    match v
    case Undefined => "undefined"
    case Null => "null"
    case Bool(b) => if b then "true" else "false"
    case Number(n) => IntToString(n)
    case Str(s) => s
  }

  /** `parseInt(v, 10)`: the value is converted with `String` first. */
  function ParseIntValue(v: JsValue): Num {
    ParseInt(ToJsString(v))
  }

  /** Reading a property of a plain object (`this._values[name]`,
      `prefs.get(name)`): undefined when the object has no such key. */
  function Prop(o: map<string, JsValue>, name: string): JsValue {
    if name in o then o[name] else Undefined
  }

  lemma ParseIntValueOfText(s: string)
    ensures ParseIntValue(Str(s)) == ParseInt(s)
  {
  }

  /** A number survives `parseInt`: a setting stored as the parsed integer
      parses to the same integer when it is validated again. */
  lemma ParseIntValueOfNumber(n: int)
    ensures ParseIntValue(Number(n)) == Int(n)
  {
    ParseIntOfDecimal(n);
  }
}
