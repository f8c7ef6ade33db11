/** JSON documents as Python holds them after `json.loads`. */
module Json {
  import opened Utf8

  /** Object keys, interned: each number is one name.  The numbers below 24 are the names the
      schema code knows; every other name has a number from 24 on. */
  type Key = nat

  const DEFS: Key := 0
  const DEFINITIONS: Key := 1
  const DEPENDENT_SCHEMAS: Key := 2
  const PATTERN_PROPERTIES: Key := 3
  const PROPERTIES: Key := 4
  const ADDITIONAL_PROPERTIES: Key := 5
  const CONTAINS: Key := 6
  const CONTENT_SCHEMA: Key := 7
  const ELSE: Key := 8
  const IF: Key := 9
  const ITEMS: Key := 10
  const NOT: Key := 11
  const PROPERTY_NAMES: Key := 12
  const THEN: Key := 13
  const UNEVALUATED_ITEMS: Key := 14
  const UNEVALUATED_PROPERTIES: Key := 15
  const ALL_OF: Key := 16
  const ANY_OF: Key := 17
  const ONE_OF: Key := 18
  const PREFIX_ITEMS: Key := 19
  const X_MCP_HEADER: Key := 20
  const TYPE: Key := 21
  const MIN_CONTAINS: Key := 22
  const MAX_CONTAINS: Key := 23

  datatype Json =
    | Null
    | Bool(b: bool)
    | Int(n: int)
    | Float(r: real)
    | Str(text: Text)
    | Arr(items: seq<Json>)
    | Obj(m: map<Key, Json>)

  /** `isinstance(value, (dict, bool))`: what the walks below take for a schema. */
  predicate IsSchema(v: Json) { v.Obj? || v.Bool? }

  function Members(v: Json): map<Key, Json> { if v.Obj? then v.m else map[] }

  function Elements(v: Json): seq<Json> { if v.Arr? then v.items else [] }
}
