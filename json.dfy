/** The part of a JSON document tree that the registry and journal records
    are read from and written to. The text encoding itself is not modelled:
    a document is this tree. */
module JsonValue {

  datatype Json =
    | JNull
    | JBoolean(boolean: bool)
    | JString(str: string)
    | JArray(items: seq<Json>)
    | JObject(fields: map<string, Json>)

  /** `j.find(key).unwrap().as_string().unwrap()` succeeds. */
  predicate HasString(j: Json, key: string) {
    j.JObject? && key in j.fields && j.fields[key].JString?
  }

  /** `j.find(key).unwrap().as_boolean().unwrap()` succeeds. */
  predicate HasBoolean(j: Json, key: string) {
    j.JObject? && key in j.fields && j.fields[key].JBoolean?
  }

  /** `j[key].as_array().unwrap()` succeeds. */
  predicate HasArray(j: Json, key: string) {
    j.JObject? && key in j.fields && j.fields[key].JArray?
  }
}
