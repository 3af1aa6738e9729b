/** The dynamically typed values a stored document or a dictionary holds. */
module Values {

  datatype Value =
    | Null
    | Flag(b: bool)
    | Number(n: int)
    | Text(s: string)
    | Items(items: seq<Value>)

  /** A dictionary as the document store hands it back. */
  type Dict = map<string, Value>
}
