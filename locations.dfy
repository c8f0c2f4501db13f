/** Location lookup, chk-odoo-dups.py:115-125: each location name is searched on the
    server, the first match's id is taken, and the run stops unless both ids are
    truthy. */
module Locations {
  import opened Wrappers
  import opened Inventory

  /** One answer of the `stock.location` `search_read` at chk-odoo-dups.py:116. */
  datatype LocationRecord = LocationRecord(id: LocationId, completeName: string)

  /** `get_location_id`'s result: the id of the first search result, none if there are
      no results. */
  function FirstLocationId(matches: seq<LocationRecord>): (r: Option<LocationId>)
    ensures r.None? <==> matches == []
    ensures r.Some? ==> r.value == matches[0].id
  {
    if |matches| > 0 then Some(matches[0].id) else None
  }

  /** Python truthiness of a location id as tested at chk-odoo-dups.py:122: `None`
      and the id `0` both count as "not found". */
  predicate Truthy(id: Option<LocationId>)
  {
    id.Some? && id.value != 0
  }

  datatype LookupError = LocationNotFound

  /** Both lookups of chk-odoo-dups.py:119-125: the pair of ids, or the
      "locations were not found" exit. */
  function ResolveLocations(inputMatches: seq<LocationRecord>, stockMatches: seq<LocationRecord>)
    : (r: Result<(LocationId, LocationId), LookupError>)
    ensures r.Success? <==>
      && inputMatches != [] && inputMatches[0].id != 0
      && stockMatches != [] && stockMatches[0].id != 0
    ensures r.Success? ==> r.value == (inputMatches[0].id, stockMatches[0].id)
  {
    var inputId := FirstLocationId(inputMatches);
    var stockId := FirstLocationId(stockMatches);
    if !Truthy(inputId) || !Truthy(stockId) then Failure(LocationNotFound)
    else Success((inputId.value, stockId.value))
  }
}
