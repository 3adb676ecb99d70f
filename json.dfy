/** The JSON trees the services read: Jackson's JsonNode on the report side and
    the untyped Map/List values on the preventive-maintenance side. An object
    keeps its members in document order, as Jackson's ObjectNode and
    LinkedHashMap do. */
module Json {
  import opened Wrappers
  import opened Text

  datatype Json =
    | JText(text: string)
    | JInt(number: int)
    | JBool(flag: bool)
    | JNull
    | JArray(items: seq<Json>)
    | JObject(members: seq<Member>)

  datatype Member = Member(name: string, value: Json)

  /** JsonNode.get(name): the member's value, or Java null when the node is not
      an object or has no such member. A JSON null member is present. */
  function Get(j: Json, name: string): (r: Option<Json>)
    ensures r.Some? ==> j.JObject? && exists i :: 0 <= i < |j.members| && j.members[i] == Member(name, r.value)
    ensures r.None? ==> !j.JObject? || forall i :: 0 <= i < |j.members| ==> j.members[i].name != name
  {
    if j.JObject? then Lookup(j.members, name) else None
  }

  /** The value of the first member called name. */
  function Lookup(ms: seq<Member>, name: string): (r: Option<Json>)
    ensures r.Some? ==> exists i :: 0 <= i < |ms| && ms[i] == Member(name, r.value)
    ensures r.None? ==> forall i :: 0 <= i < |ms| ==> ms[i].name != name
  {
    if ms == [] then None
    else if ms[0].name == name then Some(ms[0].value)
    else
      var r := Lookup(ms[1..], name);
      assert r.Some? ==> ms[1..][0..] == ms[1..];
      r
  }

  /** JsonNode.has(name) */
  predicate Has(j: Json, name: string) {
    Get(j, name).Some?
  }

  /** The nodes a for-each over a JsonNode visits: an array's items, an object's
      member values, nothing for a scalar. */
  function Elements(j: Json): seq<Json> {
    match j
    case JArray(items) => items
    case JObject(ms) => seq(|ms|, i requires 0 <= i < |ms| => ms[i].value)
    case _ => []
  }

  /** JsonNode.asText(): the text of a scalar, "null" for a null node and the
      empty string for a container. */
  function AsText(j: Json): string {
    match j
    case JText(s) => s
    case JInt(n) => IntToString(n)
    case JBool(b) => if b then "true" else "false"
    case JNull => "null"
    case JArray(_) => ""
    case JObject(_) => ""
  }

  /** JsonNode.asInt(): the value of a number node and 0 for anything else. */
  function AsInt(j: Json): int {
    if j.JInt? then j.number else 0
  }

  /** String.valueOf of the value Jackson binds for an untyped Object: a String,
      an Integer, a Boolean, an ArrayList or a LinkedHashMap. */
  function ValueOf(j: Json): string
    decreases j, 1
  {
    match j
    case JText(s) => s
    case JInt(n) => IntToString(n)
    case JBool(b) => if b then "true" else "false"
    case JNull => "null"
    case JArray(items) => "[" + Join(ItemStrings(j), ", ") + "]"
    case JObject(ms) => "{" + Join(MemberStrings(j), ", ") + "}"
  }

  function ItemStrings(j: Json): seq<string>
    requires j.JArray?
    decreases j, 0
  {
    seq(|j.items|, i requires 0 <= i < |j.items| => ValueOf(j.items[i]))
  }

  function MemberStrings(j: Json): seq<string>
    requires j.JObject?
    decreases j, 0
  {
    seq(|j.members|, i requires 0 <= i < |j.members| => j.members[i].name + "=" + ValueOf(j.members[i].value))
  }
}
