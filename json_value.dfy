/** JSON values as serde reads and writes them (RFC 8259 section 3): the
    objects, strings and booleans the account messages are made of.
    Text form, whitespace and escapes are below this level. */
module JsonValue {
  import opened Wrappers

  datatype Value =
    | Object(fields: seq<(string, Value)>)
    | String(text: string)
    | Bool(flag: bool)

  /** The value of the first member named `key`, from member `k` on. */
  function Member(fields: seq<(string, Value)>, key: string, k: nat): (r: Option<Value>)
    requires k <= |fields|
    ensures r.Some? <==> exists i :: k <= i < |fields| && fields[i].0 == key
    ensures r.Some? ==> exists i :: k <= i < |fields| && fields[i] == (key, r.value)
    decreases |fields| - k
  {
    if k == |fields| then None
    else if fields[k].0 == key then Some(fields[k].1)
    else Member(fields, key, k + 1)
  }

  /** The boolean member `key` of an object, if it has one. */
  function BoolMember(fields: seq<(string, Value)>, key: string): (r: Option<bool>)
    ensures r.Some? ==> Member(fields, key, 0) == Some(Bool(r.value))
    ensures r.None? ==> Member(fields, key, 0).None? || !Member(fields, key, 0).value.Bool?
  {
    match Member(fields, key, 0)
    case Some(Bool(b)) => Some(b)
    case _ => None
  }
}
