/** Rows as the pipeline passes them on: ordered dicts from column names to values. */
module Records {
  datatype Value = Null | Text(text: string)

  /** A dict: its keys in insertion order, and what they map to. */
  datatype Record = Record(names: seq<string>, cells: map<string, Value>)

  ghost predicate WellFormed(r: Record) {
    forall name :: name in r.names <==> name in r.cells
  }

  ghost predicate AllWellFormed(rows: seq<Record>) {
    forall r :: r in rows ==> WellFormed(r)
  }

  function Get(r: Record, name: string): Value {
    if name in r.cells then r.cells[name] else Null
  }

  predicate Distinct<T(==)>(s: seq<T>) {
    forall i, j :: 0 <= i < j < |s| ==> s[i] != s[j]
  }
}
