/** SQLite values, as `rusqlite::types::Value` lists them. */
module SqlValues {
  datatype Value = Null | Integer(i: int) | Real(r: real) | Text(t: string) | Blob(b: seq<bv8>)
}
