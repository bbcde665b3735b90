/** JavaScript values as the Express routes see them after JSON body parsing:
    an absent property reads as Undefined; arrays and objects are Composite. */
module JsValues {

  datatype Option<+T> = None | Some(value: T)

  datatype JsValue =
    | Undefined
    | Null
    | Bool(b: bool)
    | Num(x: real)
    | Str(s: string)
    | Composite

  /** JavaScript truthiness: `if (v)` takes the branch exactly when Truthy(v). */
  predicate Truthy(v: JsValue) {
    match v
    case Undefined => false
    case Null => false
    case Bool(b) => b
    case Num(x) => x != 0.0
    case Str(s) => s != ""
    case Composite => true
  }

  /** A request body or a stored document: property name to value. */
  type Document = map<string, JsValue>

  /** `doc.key`, which is undefined when the property is absent. */
  function Field(doc: Document, key: string): JsValue {
    if key in doc then doc[key] else Undefined
  }

  /** The characters matched by `\s` in a JavaScript regular expression, which are
      also the ones `parseInt` skips at the start of its argument. */
  predicate IsJsWhitespace(c: char) {
    || c == '\t' || c == '\n' || c == '\U{B}' || c == '\U{C}' || c == '\r' || c == ' '
    || c == '\U{A0}' || c == '\U{1680}' || ('\U{2000}' <= c <= '\U{200A}')
    || c == '\U{2028}' || c == '\U{2029}' || c == '\U{202F}' || c == '\U{205F}'
    || c == '\U{3000}' || c == '\U{FEFF}'
  }
}
