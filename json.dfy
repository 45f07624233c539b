/** The dynamically typed values the matcher passes around: parsed JSON and
    Python dictionaries. A dictionary keeps its insertion order, as Python's
    does, so it is an association list; a key is read at its first
    occurrence and assigned in place. */
module JsonValue {
  import opened Wrappers
  import opened Assoc

  datatype Json =
    | JNull
    | JBool(b: bool)
    | JInt(i: int)
    | JFloat(r: real)
    | JStr(s: string)
    | JList(items: seq<Json>)
    | JObj(fields: seq<(string, Json)>)

  type Fields = seq<(string, Json)>

  /** Python truthiness: `None`, `False`, zero, and empty containers are false. */
  predicate Truthy(j: Json) {
    match j
    case JNull => false
    case JBool(b) => b
    case JInt(i) => i != 0
    case JFloat(r) => r != 0.0
    case JStr(s) => s != []
    case JList(xs) => xs != []
    case JObj(fs) => fs != []
  }

  /** A non-empty string (`value and isinstance(value, str)`). */
  predicate IsNonEmptyStr(j: Json) {
    j.JStr? && j.s != []
  }

  /** `d.get(k, default)` on a value that may not be a dict; Python would
      raise on a non-dict, callers check `isinstance` first. */
  function Get(j: Json, k: string, default: Json): Json {
    if j.JObj? then Lookup(j.fields, k).GetOr(default) else default
  }

  /** `k in j` for a dict value. */
  predicate Has(j: Json, k: string) {
    j.JObj? && HasKey(j.fields, k)
  }

  /** `d.get(k) or default`. */
  function GetOrIfFalsy(j: Json, k: string, default: Json): Json {
    var v := Get(j, k, JNull);
    if Truthy(v) then v else default
  }

  /** A JSON list's items, or `[]` for anything else (`x if isinstance(x, list) else []`). */
  function ListOrEmpty(j: Json): seq<Json> {
    if j.JList? then j.items else []
  }

  function Strs(xs: seq<string>): (js: seq<Json>)
    ensures |js| == |xs|
    ensures forall i :: 0 <= i < |xs| ==> js[i] == JStr(xs[i])
  {
    seq(|xs|, i requires 0 <= i < |xs| => JStr(xs[i]))
  }
}
