/** Values as JSON keeps them: step outputs, callback payloads and the details of audit events. */
module JsonValues {
  datatype Json =
    | Null
    | Bool(b: bool)
    | Number(n: int)
    | Text(s: string)
    | Array(items: seq<Json>)
    | Object(fields: Fields)

  type Fields = map<string, Json>
}
