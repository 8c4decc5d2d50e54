/** JSON values as they travel between the TCP chat server, the bridge and the browser. */
module Json {
  import opened Wrappers

  /** A JSON value; numbers are modelled as integers. */
  datatype Json =
    | JNull
    | JBool(b: bool)
    | JNum(n: int)
    | JStr(text: string)
    | JArr(items: seq<Json>)
    | JObj(fields: map<string, Json>)

  /** The member `key` of an object; `None` for a missing key or a value that is not an object. */
  function Member(j: Json, key: string): (r: Option<Json>)
    ensures r.Some? <==> j.JObj? && key in j.fields
    ensures r.Some? ==> r.value == j.fields[key]
  {
    if j.JObj? && key in j.fields then Some(j.fields[key]) else None
  }

  /** The flat object with string members produced by `{"type": kind, "payload": text}`-style literals. */
  function StatusEvent(payload: string): Json
  {
    JObj(map["type" := JStr("status"), "payload" := JStr(payload)])
  }
}
