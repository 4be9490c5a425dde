/**
 * JSON values as the gateway sees them after json-c has parsed the body,
 * and the compact text blobmsg_format_json produces for a response.
 */
module Json {
  import opened Wrappers
  import Format

  datatype Json =
    | JNull
    | JBool(b: bool)
    | JInt(i: int)
    | JString(s: string)
    | JArray(items: seq<Json>)
    | JObject(members: seq<(string, Json)>)

  /**
   * Value stored under `key`.  The objects here come from json-c, which
   * keeps each key once (a later duplicate replaces the earlier value), so
   * the member found is the only one of that name.
   */
  function Member(members: seq<(string, Json)>, key: string): (r: Option<Json>)
    ensures r.Some? <==> exists k :: 0 <= k < |members| && members[k].0 == key
    ensures r.Some? ==> exists k :: 0 <= k < |members| && members[k] == (key, r.value)
  {
    if |members| == 0 then None
    else if members[0].0 == key then Some(members[0].1)
    else
      var r := Member(members[1..], key);
      assert forall k :: 1 <= k < |members| ==> members[k] == members[1..][k - 1];
      r
  }

  /** A JSON string literal; quote, backslash and the common control characters are escaped. */
  function Quote(s: string): string
  {
    "\"" + Escaped(s) + "\""
  }

  function Escaped(s: string): string
    decreases |s|
  {
    if |s| == 0 then ""
    else
      var c := s[0];
      (if c == '"' then "\\\""
       else if c == '\\' then "\\\\"
       else if c == '\n' then "\\n"
       else if c == '\r' then "\\r"
       else if c == '\t' then "\\t"
       else [c]) + Escaped(s[1..])
  }

  /** Compact rendering: members as `"name":value`, separated by `,`. */
  function Render(j: Json): string
    decreases j
  {
    match j
    case JNull => "null"
    case JBool(b) => if b then "true" else "false"
    case JInt(i) => Format.Integer(i)
    case JString(s) => Quote(s)
    case JArray(items) => "[" + RenderItems(j, items) + "]"
    case JObject(members) => "{" + RenderMembers(j, members) + "}"
  }

  function RenderItems(parent: Json, items: seq<Json>): string
    requires forall k :: 0 <= k < |items| ==> items[k] < parent
    decreases parent, |items|
  {
    if |items| == 0 then ""
    else
      (if |items| == 1 then Render(items[0]) else Render(items[0]) + ",")
      + RenderItems(parent, items[1..])
  }

  function RenderMembers(parent: Json, members: seq<(string, Json)>): string
    requires forall k :: 0 <= k < |members| ==> members[k].1 < parent
    decreases parent, |members|
  {
    if |members| == 0 then ""
    else
      var m := Quote(members[0].0) + ":" + Render(members[0].1);
      (if |members| == 1 then m else m + ",") + RenderMembers(parent, members[1..])
  }
}
