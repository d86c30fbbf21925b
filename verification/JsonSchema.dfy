/** JSON documents and what the draft-07 keywords that rig emits demand of them. */
module JsonSchema {

  datatype Json =
    | JNull
    | JBool(b: bool)
    | JNum(n: real)
    | JStr(s: string)
    | JArr(items: seq<Json>)
    | JObj(members: map<string, Json>)

  /** A regular-expression search: does the pattern occur in the text? */
  type Search = (string, string) -> bool

  /** Section 6.1.1 of JSON Schema Validation: an integer is any number without a fraction. */
  predicate HasType(d: Json, name: string) {
    match d
    case JNull => name == "null"
    case JBool(_) => name == "boolean"
    case JNum(n) => name == "number" || (name == "integer" && n.Floor as real == n)
    case JStr(_) => name == "string"
    case JArr(_) => name == "array"
    case JObj(_) => name == "object"
  }

  predicate TypeRule(arg: Json, d: Json) {
    match arg
    case JStr(name) => HasType(d, name)
    case JArr(names) => exists t :: t in names && t.JStr? && HasType(d, t.s)
    case _ => true
  }

  predicate EnumRule(arg: Json, d: Json) {
    arg.JArr? ==> d in arg.items
  }

  predicate MinimumRule(arg: Json, d: Json) {
    arg.JNum? && d.JNum? ==> arg.n <= d.n
  }

  predicate MaximumRule(arg: Json, d: Json) {
    arg.JNum? && d.JNum? ==> d.n <= arg.n
  }

  predicate PatternRule(search: Search, arg: Json, d: Json) {
    arg.JStr? && d.JStr? ==> search(arg.s, d.s)
  }

  predicate RequiredRule(arg: Json, d: Json) {
    arg.JArr? && d.JObj? ==> forall r :: r in arg.items && r.JStr? ==> r.s in d.members
  }

  /** The keywords whose arguments are not schemas: sections 6.1, 6.2, 6.3.3 and 6.5.3. */
  predicate PlainRules(search: Search, m: map<string, Json>, d: Json) {
    && ("type" in m ==> TypeRule(m["type"], d))
    && ("enum" in m ==> EnumRule(m["enum"], d))
    && ("minimum" in m ==> MinimumRule(m["minimum"], d))
    && ("maximum" in m ==> MaximumRule(m["maximum"], d))
    && ("pattern" in m ==> PatternRule(search, m["pattern"], d))
    && ("required" in m ==> RequiredRule(m["required"], d))
  }

  /** Validation against the keywords rig emits; any other keyword is ignored. */
  ghost predicate Validates(search: Search, schema: Json, d: Json)
    decreases schema, 1
  {
    match schema
    case JBool(b) => b
    case JObj(m) =>
      && PlainRules(search, m, d)
      && ItemRules(search, schema, d)
      && MemberRules(search, schema, d)
      && LogicRules(search, schema, d)
    case _ => false
  }

  /** Section 6.4.1, one schema for all elements. */
  ghost predicate ItemRules(search: Search, schema: Json, d: Json)
    requires schema.JObj?
    decreases schema, 0
  {
    var m := schema.members;
    "items" in m && d.JArr? ==> forall i :: 0 <= i < |d.items| ==> Validates(search, m["items"], d.items[i])
  }

  /** Sections 6.5.4 and 6.5.6: a member is governed by its property, or else by the additional schema. */
  ghost predicate MemberRules(search: Search, schema: Json, d: Json)
    requires schema.JObj?
    decreases schema, 0
  {
    var m := schema.members;
    d.JObj? ==> forall k :: k in d.members ==>
      if "properties" in m && m["properties"].JObj? && k in m["properties"].members
      then Validates(search, m["properties"].members[k], d.members[k])
      else "additionalProperties" in m ==> Validates(search, m["additionalProperties"], d.members[k])
  }

  /** Sections 6.7.2 to 6.7.4. */
  ghost predicate LogicRules(search: Search, schema: Json, d: Json)
    requires schema.JObj?
    decreases schema, 0
  {
    var m := schema.members;
    && ("not" in m ==> !Validates(search, m["not"], d))
    && ("anyOf" in m && m["anyOf"].JArr? ==>
      exists i :: 0 <= i < |m["anyOf"].items| && Validates(search, m["anyOf"].items[i], d))
    && ("oneOf" in m && m["oneOf"].JArr? ==>
      (exists i :: 0 <= i < |m["oneOf"].items| && Validates(search, m["oneOf"].items[i], d))
      && forall i, j :: 0 <= i < j < |m["oneOf"].items| ==>
        !Validates(search, m["oneOf"].items[i], d) || !Validates(search, m["oneOf"].items[j], d))
  }
}
