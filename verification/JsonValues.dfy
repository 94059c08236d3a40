/**
 * JSON documents as values; how they are written as text is not part of this model.
 *
 * `Name` is the type of member names. Each protocol supplies its own: one constructor for
 * every name it knows, and one for any other text.
 */
module JsonValues {
  datatype Json<Name(==)> =
    | Null
    | Bool(flag: bool)
    | Int(number: int)
    | Float(amount: real)
    | String(text: string)
    | Array(items: seq<Json<Name>>)
    | Object(fields: map<Name, Json<Name>>)
}
