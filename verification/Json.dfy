// Parsed JSON documents, and the two JsonCpp accessors that can throw.
module Json {
  import opened Common

  /** Numbers carry the text that asString gives for them. */
  datatype Json =
    | Null
    | Bool(b: bool)
    | Num(text: string)
    | Str(s: string)
    | Arr(elems: seq<Json>)
    | Obj(fields: map<string, Json>)

  /** isMember is defined on objects and on null (which has no members); otherwise it throws. */
  predicate CanAskMembers(j: Json) {
    j.Obj? || j.Null?
  }

  predicate Has(j: Json, name: string) {
    j.Obj? && name in j.fields
  }

  predicate HasStr(j: Json, name: string) {
    Has(j, name) && j.fields[name].Str?
  }

  /** asString converts scalars; None stands for the exception thrown on arrays and objects. */
  function AsString(j: Json): Option<string> {
    match j
    case Null => Some("")
    case Bool(b) => Some(if b then "true" else "false")
    case Num(text) => Some(text)
    case Str(s) => Some(s)
    case Arr(_) => None
    case Obj(_) => None
  }

  /** What reading and parsing a file yields. */
  datatype FileContent = Unreadable | Malformed | Doc(root: Json)
}
