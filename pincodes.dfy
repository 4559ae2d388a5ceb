/**
 * The location resolver: a pincode is looked up in the pincode table, and
 * the coordinates of the first matching row are returned
 * (get_lat_lon_from_pincode, app_logic.py:16-34).
 */
module Pincodes {
  import opened Wrappers

  /** One row of the pincode table. */
  datatype LocationRecord = LocationRecord(pincode: int, latitude: real, longitude: real)

  /** The rows whose pincode equals the key, in table order: `df[df['pincode'] == pincode]`. */
  function RowsWithPincode(table: seq<LocationRecord>, pincode: int): (rows: seq<LocationRecord>)
    ensures |rows| <= |table|
    ensures forall j :: 0 <= j < |rows| ==> rows[j] in table && rows[j].pincode == pincode
  {
    if table == [] then []
    else (if table[0].pincode == pincode then [table[0]] else []) + RowsWithPincode(table[1..], pincode)
  }

  /** The first matching row's (latitude, longitude), or None for "(None, None)". */
  function LatLonFromPincode(pincode: int, table: seq<LocationRecord>): (r: Option<(real, real)>)
    ensures r.Some? ==> exists j :: 0 <= j < |table| && table[j].pincode == pincode &&
                                   r.value == (table[j].latitude, table[j].longitude)
  {
    var rows := RowsWithPincode(table, pincode);
    if rows != [] then Some((rows[0].latitude, rows[0].longitude)) else None
  }

  /** The lookup finds nothing exactly when no row carries the pincode. */
  lemma {:induction false} NotFoundIffAbsent(pincode: int, table: seq<LocationRecord>)
    ensures LatLonFromPincode(pincode, table).None? <==>
            forall j :: 0 <= j < |table| ==> table[j].pincode != pincode
  {
    if table != [] {
      NotFoundIffAbsent(pincode, table[1..]);
      assert forall j :: 1 <= j < |table| ==> table[j] == table[1..][j - 1];
    }
  }

  /** When row i is the first row carrying the pincode, its coordinates are returned. */
  lemma {:induction false} FirstMatchWins(pincode: int, table: seq<LocationRecord>, i: nat)
    requires i < |table| && table[i].pincode == pincode
    requires forall j :: 0 <= j < i ==> table[j].pincode != pincode
    ensures LatLonFromPincode(pincode, table) == Some((table[i].latitude, table[i].longitude))
  {
    if i > 0 {
      FirstMatchWins(pincode, table[1..], i - 1);
      assert RowsWithPincode(table, pincode) == RowsWithPincode(table[1..], pincode);
    }
  }
}
