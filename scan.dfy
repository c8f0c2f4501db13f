/** The run from the location lookups to the printed result, chk-odoo-dups.py:119-164,
    with the quant search and the point reads supplied as inputs. */
module Scan {
  import opened Wrappers
  import opened Inventory
  import opened LotGrouping
  import opened DuplicateReport
  import opened Locations

  /** Resolve both locations, stopping when either is not found; otherwise look for
      duplicate lots among `quants`, the quants the server returns for the two ids,
      and conclude with either "No duplicates found." or the list of rows. */
  method ScanLocations(
    inputMatches: seq<LocationRecord>,
    stockMatches: seq<LocationRecord>,
    quants: seq<Quant>,
    remote: Remote)
    returns (r: Result<Outcome, LookupError>)
    ensures r.Failure? <==> !(Truthy(FirstLocationId(inputMatches)) && Truthy(FirstLocationId(stockMatches)))
    ensures r.Success? ==>
      (r.value.NoDuplicatesFound? <==> forall i, j :: 0 <= i < j < |quants| ==> quants[i].lotId != quants[j].lotId)
    ensures r.Success? && r.value.DuplicatesFound? ==> IsDuplicateReport(quants, remote, r.value.rows)
  {
    var ids := ResolveLocations(inputMatches, stockMatches);
    if ids.Failure? {
      return Failure(ids.error);
    }
    var duplicates := FindDuplicates(quants, remote);
    NoDuplicatesIffLotsUnique(quants);
    r := Success(Conclude(duplicates));
  }

  /** Two quants of one lot and one quant of another: exactly the two quants of the
      shared lot are reported, in input order. */
  lemma SharedLotExample()
    ensures var qs := [Quant(1, 7, 1.0, 10), Quant(1, 7, 1.0, 20), Quant(2, 8, 1.0, 10)];
      DuplicatePositions(qs) == [0, 1]
  {
    var a, b, c := Quant(1, 7, 1.0, 10), Quant(1, 7, 1.0, 20), Quant(2, 8, 1.0, 10);
    var qs := [a, b, c];
    assert [a][..0] == [] && [a, b][..1] == [a] && qs[..2] == [a, b];
    assert LotOrder([a]) == [7] && Positions([a], 7) == [0] && Positions([a], 8) == [];
    assert LotOrder([a, b]) == [7] && Positions([a, b], 7) == [0, 1] && Positions([a, b], 8) == [];
    assert LotOrder(qs) == [7, 8] && Positions(qs, 7) == [0, 1] && Positions(qs, 8) == [2];
    assert [7, 8][..1] == [7] && [7][..0] == [];
  }

  /** Lot 5 sits once at location 10 ("Input", quantity 5) and once at location 20
      ("Stock", quantity 3): the report has two rows, both naming lot 5, the first
      at "Input" with 5, the second at "Stock" with 3. */
  lemma InputAndStockExample(remote: Remote, rows: seq<ReportRow>)
    requires remote.readLocationName(10) == "Input" && remote.readLocationName(20) == "Stock"
    requires IsDuplicateReport([Quant(1, 5, 5.0, 10), Quant(1, 5, 3.0, 20)], remote, rows)
    ensures |rows| == 2
    ensures rows[0].lotSerialNumber == rows[1].lotSerialNumber == remote.readLotName(5)
    ensures rows[0].location == "Input" && rows[0].quantity == 5.0
    ensures rows[1].location == "Stock" && rows[1].quantity == 3.0
  {
    var a, b := Quant(1, 5, 5.0, 10), Quant(1, 5, 3.0, 20);
    assert [a][..0] == [] && [a, b][..1] == [a];
    assert LotOrder([a]) == [5] && Positions([a], 5) == [0];
    assert LotOrder([a, b]) == [5] && Positions([a, b], 5) == [0, 1];
    assert [5][..0] == [];
    assert DuplicatePositions([a, b]) == [0, 1];
  }
}
