/** The Python operations that the repair, mapping and merging code applies
    to values of unknown shape: `in`, `len`, `x[k]`, `x[k] = v`, `d.get`,
    and iteration. Each one fails the way Python raises when the value has
    the wrong type; the error carries the exception's class name. */
module PyOps {
  import opened Wrappers
  import opened Text
  import opened JsonValue
  import opened Assoc

  /** `key in c` for a string key: a dict tests its keys, a list its
      elements, a string its substrings; anything else raises. */
  function In(key: string, c: Json): (r: Result<bool>)
    ensures r.Ok? <==> c.JObj? || c.JList? || c.JStr?
    ensures c.JObj? ==> r == Ok(HasKey(c.fields, key))
    ensures c.JList? ==> r == Ok(JStr(key) in c.items)
  {
    match c
    case JObj(fs) => Ok(HasKey(fs, key))
    case JList(xs) => Ok(JStr(key) in xs)
    case JStr(s) => Ok(Contains(s, key))
    case _ => Err("TypeError")
  }

  /** `c[key]` for a string key: only a dict holding the key answers. */
  function GetItem(c: Json, key: string): (r: Result<Json>)
    ensures r.Ok? <==> c.JObj? && HasKey(c.fields, key)
    ensures r.Ok? ==> Lookup(c.fields, key) == Some(r.value)
  {
    match c
    case JObj(fs) => if HasKey(fs, key) then Ok(Lookup(fs, key).value) else Err("KeyError")
    case _ => Err("TypeError")
  }

  /** `c[key] = v`: only a dict accepts a string key. */
  function SetItem(c: Json, key: string, v: Json): (r: Result<Json>)
    ensures r.Ok? <==> c.JObj?
    ensures r.Ok? ==> r.value == JObj(Put(c.fields, key, v))
  {
    match c
    case JObj(fs) => Ok(JObj(Put(fs, key, v)))
    case _ => Err("TypeError")
  }

  /** `c.get(key, default)`: only a dict has the method. */
  function DictGet(c: Json, key: string, default: Json): (r: Result<Json>)
    ensures r.Ok? <==> c.JObj?
    ensures r.Ok? ==> r.value == Get(c, key, default)
  {
    if c.JObj? then Ok(Get(c, key, default)) else Err("AttributeError")
  }

  /** `len(c)`. */
  function Len(c: Json): (r: Result<nat>)
    ensures r.Ok? <==> c.JObj? || c.JList? || c.JStr?
    ensures c.JList? ==> r == Ok(|c.items|)
    ensures c.JStr? ==> r == Ok(|c.s|)
  {
    match c
    case JObj(fs) => Ok(|fs|)
    case JList(xs) => Ok(|xs|)
    case JStr(s) => Ok(|s|)
    case _ => Err("TypeError")
  }

  /** The one-character strings of `s`. */
  function Chars(s: string): (r: seq<Json>)
    ensures |r| == |s| && forall i :: 0 <= i < |s| ==> r[i] == JStr([s[i]])
  {
    seq(|s|, i requires 0 <= i < |s| => JStr([s[i]]))
  }

  /** `for x in c`: a list yields its items, a string its characters, a
      dict its keys. */
  function Iter(c: Json): (r: Result<seq<Json>>)
    ensures r.Ok? <==> c.JObj? || c.JList? || c.JStr?
    ensures c.JList? ==> r == Ok(c.items)
    ensures r.Ok? ==> forall i :: 0 <= i < |r.value| ==> c.JList? || r.value[i].JStr?
  {
    match c
    case JObj(fs) => Ok(Strs(Keys(fs)))
    case JList(xs) => Ok(xs)
    case JStr(s) => Ok(Chars(s))
    case _ => Err("TypeError")
  }
}
