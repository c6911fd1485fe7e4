/**
 * Shared vocabulary of the model: optional values, the JavaScript truthiness
 * rules that the handlers lean on, and the record a skill handler hands back.
 */
module Common {

  /** An optional value; `None` plays the role of JavaScript's `undefined`/`null`. */
  datatype Option<+T> = None | Some(value: T) {
    function GetOr(default: T): T {
      match this
      case Some(v) => v
      case None => default
    }
  }

  /** JavaScript truthiness of an optional string: `undefined` and "" are falsy. */
  predicate Truthy(o: Option<string>) {
    o.Some? && o.value != ""
  }

  /** The JavaScript expression `o || fallback` for an optional string. */
  function OrElse(o: Option<string>, fallback: string): string {
    if Truthy(o) then o.value else fallback
  }

  /** How a template literal prints an optional string: `undefined` prints as "undefined". */
  function Show(o: Option<string>): string {
    match o
    case Some(s) => s
    case None => "undefined"
  }

  /**
   * The names every object literal inherits from `Object.prototype`. Indexing
   * an object literal with one of them finds a function, or the prototype
   * itself for `__proto__`, and either is truthy.
   */
  const InheritedNames: set<string> := {
    "constructor", "hasOwnProperty", "isPrototypeOf", "propertyIsEnumerable", "toLocaleString",
    "toString", "valueOf", "__defineGetter__", "__defineSetter__", "__lookupGetter__",
    "__lookupSetter__", "__proto__"}

  /**
   * What a skill handler hands back: the feature state after the call, the
   * reply string, and the tab it asked the host to open through `setTab`
   * (None when it did not call `setTab`).
   */
  datatype Reply<S> = Reply(state: S, text: string, tab: Option<string>)
}
