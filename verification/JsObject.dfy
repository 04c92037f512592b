/** Plain JavaScript objects used as maps: the `in` operator also sees inherited names. */
module JsObject {

  /** The names every `{}` inherits (ECMAScript, section 20.1.3). */
  const INHERITED_NAMES: set<string> := {
    "constructor", "__defineGetter__", "__defineSetter__", "hasOwnProperty", "__lookupGetter__",
    "__lookupSetter__", "isPrototypeOf", "propertyIsEnumerable", "toString", "valueOf", "__proto__",
    "toLocaleString"
  }

  predicate Inherited(name: string) {
    name in INHERITED_NAMES
  }

  /** `name in object`. */
  predicate InObject<V>(name: string, obj: map<string, V>) {
    name in obj || Inherited(name)
  }
}
