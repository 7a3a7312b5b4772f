/**
 * Catalog rows and the two ways the filter reads them: `row.get(key, '')`,
 * which never fails, and `row[key]`, which raises `KeyError` when the column
 * is missing. The exception is modelled as a `KeyError` result that names the
 * missing key and the position of the row in the list.
 */
module Records {

  /** One catalog row: column name to value, as `csv.DictReader` yields it. */
  type Record = map<string, string>

  datatype Option<T> = None | Some(value: T)

  datatype Result<T> = Ok(value: T) | KeyError(key: string, index: nat)

  /** `row.get(key, '')`. */
  function Field(r: Record, key: string): string {
    if key in r then r[key] else ""
  }

  /** Some row of `rs` has no column `key`. */
  predicate SomeLacks(rs: seq<Record>, key: string) {
    exists j :: 0 <= j < |rs| && key !in rs[j]
  }

  /** The position of the first row without column `key`: where `row[key]` raises. */
  function FirstLacking(rs: seq<Record>, key: string): (i: nat)
    requires SomeLacks(rs, key)
    ensures i < |rs| && key !in rs[i]
    ensures forall j :: 0 <= j < i ==> key in rs[j]
  {
    if key !in rs[0] then 0
    else
      assert SomeLacks(rs[1..], key) by {
        var j :| 0 <= j < |rs| && key !in rs[j];
        assert key !in rs[1..][j - 1];
      }
      1 + FirstLacking(rs[1..], key)
  }
}
