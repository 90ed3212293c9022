/** The parsed JSON tree the push parser walks, and the behaviour of the
    Jackson JsonNode accessors it calls on that tree. Turning request text
    into a tree is outside the model: callers receive it as an
    `Option<Json>`, `None` standing for text that is not JSON. */
module Json {
  import opened Wrappers
  import Strings

  /** A parsed JSON value. Numbers are integers; fractional numbers are
      outside the model. An object maps each key to its (last) value. */
  datatype Json =
    | JNull
    | JBool(b: bool)
    | JInt(n: int)
    | JText(s: string)
    | JArray(items: seq<Json>)
    | JObject(fields: map<string, Json>)

  /** JsonNode.get(String): the member of an object, or Java null when the
      key is absent or the node is not an object. */
  function Get(node: Json, key: string): (r: Option<Json>)
    ensures r.Some? <==> node.JObject? && key in node.fields
    ensures r.Some? ==> r.value == node.fields[key]
  {
    match node
    case JObject(fields) => if key in fields then Some(fields[key]) else None
    case _ => None
  }

  /** JsonNode.get(int): an array element, or Java null when the index is
      out of range or the node is not an array. */
  function At(node: Json, index: nat): (r: Option<Json>)
    ensures r.Some? <==> node.JArray? && index < |node.items|
    ensures r.Some? ==> r.value == node.items[index]
  {
    match node
    case JArray(items) => if index < |items| then Some(items[index]) else None
    case _ => None
  }

  /** JsonNode.size(): element count of an array, member count of an
      object, zero for every scalar (JSON null included). */
  function Size(node: Json): (r: nat)
    ensures node.JArray? ==> r == |node.items|
    ensures node.JObject? ==> r == |node.fields|
    ensures !node.JArray? && !node.JObject? ==> r == 0
  {
    match node
    case JArray(items) => |items|
    case JObject(fields) => |fields|
    case _ => 0
  }

  /** JsonNode.asText(): the text of a string, the spelling of a number
      or boolean, "null" for JSON null, the empty string for containers.
      It never yields Java null. */
  function AsText(node: Json): string {
    match node
    case JNull => "null"
    case JBool(b) => if b then "true" else "false"
    case JInt(n) => Strings.IntToString(n)
    case JText(s) => s
    case JArray(_) => ""
    case JObject(_) => ""
  }

  /** JsonNode.asBoolean(): a boolean's value, a non-zero integer, or a
      string reading "true" once trimmed; false for everything else. */
  function AsBoolean(node: Json): bool {
    match node
    case JBool(b) => b
    case JInt(n) => n != 0
    case JText(s) => Strings.Trim(s) == "true"
    case _ => false
  }

  /** JsonNode.hasNonNull(key): the key is present and not JSON null. */
  predicate HasNonNull(node: Json, key: string) {
    node.JObject? && key in node.fields && !node.fields[key].JNull?
  }

  /** Integers are spelled so that distinct values read differently. */
  lemma AsTextOfIntInjective(a: int, b: int)
    requires AsText(JInt(a)) == AsText(JInt(b))
    ensures a == b
  {
    Strings.IntToStringInjective(a, b);
  }

  /** Surrounding blanks do not change how "true" is read. */
  lemma AsBooleanPaddedTrue(pad: string)
    requires Strings.AllBlank(pad)
    ensures AsBoolean(JText(pad + "true" + pad))
  {
    assert pad + "true" + pad == pad + ("true" + pad);
    Strings.TrimStartPadded(pad, "true" + pad);
    Strings.TrimEndPadded("true", pad);
  }
}
