/**
 * A scraped listing is a Python dict from field name to value; different
 * sources fill different keys (a Google Maps listing carries `contact` and no
 * `rating`). This module holds that record and the CSV row projection of
 * `save_to_csv`.
 */
module Listings {
  import opened Wrappers

  /** A dict value: `None`, a string, or a float. */
  datatype Value = Null | Str(s: string) | Num(x: real)

  type Hotel = map<string, Value>

  /** `hotel['name']` exists and is a string, so `.lower()` can be applied to it. */
  predicate HasName(h: Hotel) {
    "name" in h && h["name"].Str?
  }

  function OptStr(o: Option<string>): Value {
    match o
    case None => Null
    case Some(s) => Str(s)
  }

  function OptNum(o: Option<real>): Value {
    match o
    case None => Null
    case Some(x) => Num(x)
  }

  /** `hotel.get(field, '')`. */
  function Get(h: Hotel, field: string): Value {
    if field in h then h[field] else Str("")
  }

  /** The CSV header, in column order. */
  const FieldNames: seq<string> :=
    ["name", "city", "country", "rating", "price", "price_amount",
     "phone", "email", "website", "url", "source"]

  lemma FieldNamesDistinct()
    ensures forall i, j :: 0 <= i < j < |FieldNames| ==> FieldNames[i] != FieldNames[j]
  {
  }

  /** `{field: hotel.get(field, '') for field in fieldnames}`, listed in column order. */
  function Row(h: Hotel): (row: seq<Value>)
    ensures |row| == |FieldNames|
  {
    seq(|FieldNames|, i requires 0 <= i < |FieldNames| => Get(h, FieldNames[i]))
  }

  /** Reading one CSV line back against the header. */
  function ReadRow(row: seq<Value>): (record: map<string, Value>)
    requires |row| == |FieldNames|
    ensures forall i :: 0 <= i < |FieldNames| ==> FieldNames[i] in record && record[FieldNames[i]] == row[i]
    ensures forall f :: f in record ==> f in FieldNames
  {
    FieldNamesDistinct();
    map i | 0 <= i < |FieldNames| :: FieldNames[i] := row[i]
  }

  /** Writing a hotel and reading the row back yields each of the eleven fields
      with its value, `''` for a field the hotel lacks, and no other key. */
  lemma RowRoundTrip(h: Hotel)
    ensures ReadRow(Row(h)).Keys == set f | f in FieldNames
    ensures forall f :: f in FieldNames ==> ReadRow(Row(h))[f] == (if f in h then h[f] else Str(""))
  {
    var r := ReadRow(Row(h));
    forall f | f in FieldNames
      ensures r[f] == (if f in h then h[f] else Str(""))
    {
      var i :| 0 <= i < |FieldNames| && FieldNames[i] == f;
    }
  }

  /** A row read back and written again is the same row. */
  lemma ReadRowRoundTrip(row: seq<Value>)
    requires |row| == |FieldNames|
    ensures Row(ReadRow(row)) == row
  {
  }

  /** A key outside the header, such as Google Maps' `contact`, never reaches the file. */
  lemma RowIgnoresExtraKeys(h: Hotel, key: string, v: Value)
    requires key !in FieldNames
    ensures Row(h[key := v]) == Row(h)
  {
  }

  datatype Table = Table(header: seq<string>, rows: seq<seq<Value>>)

  /** `save_to_csv`: nothing is written for an empty list; otherwise the header
      and then one row per hotel, in list order. */
  method SaveToCsv(hotels: seq<Hotel>) returns (written: Option<Table>)
    ensures hotels == [] <==> written.None?
    ensures written.Some? ==> written.value.header == FieldNames
    ensures written.Some? ==> |written.value.rows| == |hotels|
    ensures written.Some? ==> forall i :: 0 <= i < |hotels| ==> written.value.rows[i] == Row(hotels[i])
  {
    if hotels == [] {
      return None;
    }
    var rows := [];
    for k := 0 to |hotels|
      invariant |rows| == k
      invariant forall i :: 0 <= i < k ==> rows[i] == Row(hotels[i])
    {
      rows := rows + [Row(hotels[k])];
    }
    written := Some(Table(FieldNames, rows));
  }
}
