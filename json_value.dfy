/** JSON values as the frontend receives and sends them. Objects are maps,
    so the order of their keys is not kept; numbers are integers. */
module JsonValue {

  import opened Wrappers
  import Text

  datatype Json = JNull | JBool(b: bool) | JNum(n: int) | JStr(s: string) | JArr(items: seq<Json>) | JObj(fields: map<string, Json>)

  /** JavaScript truthiness of a property that may be missing. */
  predicate Truthy(v: Option<Json>) {
    v.Some? &&
    match v.value
    case JNull => false
    case JBool(b) => b
    case JNum(n) => n != 0
    case JStr(s) => s != []
    case _ => true
  }

  /** `fields[key]`, `undefined` when the key is missing. */
  function Get(fields: map<string, Json>, key: string): (r: Option<Json>)
    ensures r.Some? <==> key in fields
    ensures r.Some? ==> r.value == fields[key]
  {
    if key in fields then Some(fields[key]) else None
  }
  /** A key naming a position: a non-empty run of decimal digits. */
  predicate IsIndexKey(key: string) {
    key != [] && forall i :: 0 <= i < |key| ==> '0' <= key[i] <= '9'
  }

  /** The own properties of an array: each item under its decimal index. */
  function IndexFields(items: seq<Json>): (r: map<string, Json>)
    ensures forall key :: key in r ==> IsIndexKey(key)
    ensures forall i :: 0 <= i < |items| ==> Text.NatToString(i) in r
    decreases |items|
  {
    if items == [] then map[]
    else
      var last := |items| - 1;
      IndexFields(items[..last])[Text.NatToString(last) := items[last]]
  }

  /** `{ ...v }`: an object's fields; a string's characters and an array's
      items under their index keys; nothing for null, a number or a
      boolean. */
  function Spread(v: Json): (r: map<string, Json>)
    ensures v.JObj? ==> r == v.fields
    ensures !v.JObj? ==> forall key :: key in r ==> IsIndexKey(key)
    ensures (v.JNull? || v.JBool? || v.JNum?) ==> r == map[]
  {
    match v
    case JObj(fields) => fields
    case JArr(items) => IndexFields(items)
    case JStr(s) => IndexFields(seq(|s|, k requires 0 <= k < |s| => JStr([s[k]])))
    case _ => map[]
  }

  /** `v.key` on a value that is not null: an object's field, and
      `undefined` for the named keys of a string, an array, a number or a
      boolean, none of which has such a property. */
  function Property(v: Json, key: string): (r: Option<Json>)
    ensures v.JObj? ==> r == Get(v.fields, key)
    ensures !v.JObj? ==> r.None?
  {
    if v.JObj? then Get(v.fields, key) else None
  }
}
