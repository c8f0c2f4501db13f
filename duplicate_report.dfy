/** The duplicate selection of chk-odoo-dups.py:140-156: `lot_dict` is walked in key
    order, and every quant of a lot holding more than one quant becomes one report
    row, enriched by three remote reads. */
module DuplicateReport {
  import opened Wrappers
  import opened Inventory
  import opened LotGrouping

  /** The row appended for `move` while the loop visits lot `lot`: the product's name
      and internal reference, the lot's name, the move's own location name and its
      quantity. */
  function MakeRow(move: Quant, lot: LotId, remote: Remote): ReportRow
  {
    var product := remote.readProduct(move.productId);
    ReportRow(
      product.name,
      product.defaultCode.GetOr(Text("")),
      remote.readLotName(lot),
      remote.readLocationName(move.locationId),
      move.quantity)
  }

  /** The rows of one reported group: one per move, in the group's order. */
  function GroupRows(moves: seq<Quant>, lot: LotId, remote: Remote): (rows: seq<ReportRow>)
    ensures |rows| == |moves|
    ensures forall k :: 0 <= k < |moves| ==> rows[k] == MakeRow(moves[k], lot, remote)
  {
    if moves == [] then []
    else GroupRows(moves[..|moves| - 1], lot, remote) + [MakeRow(moves[|moves| - 1], lot, remote)]
  }

  /** What `duplicates` holds once the outer loop has visited the keys `keys`. */
  function DictRows(keys: seq<LotId>, groups: map<LotId, seq<Quant>>, remote: Remote): seq<ReportRow>
    requires forall lot :: lot in keys ==> lot in groups
  {
    if keys == [] then []
    else
      var lot := keys[|keys| - 1];
      var moves := groups[lot];
      DictRows(keys[..|keys| - 1], groups, remote)
        + (if |moves| > 1 then GroupRows(moves, lot, remote) else [])
  }

  /** Input positions of the reported quants when the lots are visited in the order
      `lots`: the positions of each lot that occurs more than once. */
  function Reported(qs: seq<Quant>, lots: seq<LotId>): seq<nat>
  {
    if lots == [] then []
    else
      var ps := Positions(qs, lots[|lots| - 1]);
      Reported(qs, lots[..|lots| - 1]) + (if |ps| > 1 then ps else [])
  }

  /** Input positions of the reported quants, in report order. */
  function DuplicatePositions(qs: seq<Quant>): seq<nat>
  {
    Reported(qs, LotOrder(qs))
  }

  /** Number of lots among `lots` that hold exactly one quant. */
  function SingletonCount(qs: seq<Quant>, lots: seq<LotId>): nat
  {
    if lots == [] then 0
    else SingletonCount(qs, lots[..|lots| - 1]) + (if |Group(qs, lots[|lots| - 1])| == 1 then 1 else 0)
  }

  /** Another fetched quant carries the same lot as the quant at position `i`. */
  ghost predicate SharesLot(qs: seq<Quant>, i: nat)
    requires i < |qs|
  {
    exists j :: 0 <= j < |qs| && j != i && qs[j].lotId == qs[i].lotId
  }

  /** The quant at `i` is reported before the one at `j`: its lot first appears
      earlier, or both carry one lot and `i` comes first in the input. */
  ghost predicate ReportedBefore(qs: seq<Quant>, i: nat, j: nat)
    requires i < |qs| && j < |qs|
  {
    || FirstIndex(qs, qs[i].lotId) < FirstIndex(qs, qs[j].lotId)
    || (qs[i].lotId == qs[j].lotId && i < j)
  }

  /** `rows` is the duplicate report of `qs`: one row per reported position, each
      carrying that quant's quantity unchanged, the name of that quant's own lot,
      the name of that quant's own location, its product's name, and its product's
      `default_code` answer as given (`Text("")` when the answer has no such key). */
  ghost predicate IsDuplicateReport(qs: seq<Quant>, remote: Remote, rows: seq<ReportRow>)
  {
    var dp := DuplicatePositions(qs);
    && |rows| == |dp|
    && forall k :: 0 <= k < |rows| ==>
      && dp[k] < |qs|
      && rows[k].quantity == qs[dp[k]].quantity
      && rows[k].lotSerialNumber == remote.readLotName(qs[dp[k]].lotId)
      && rows[k].location == remote.readLocationName(qs[dp[k]].locationId)
      && rows[k].productName == remote.readProduct(qs[dp[k]].productId).name
      && rows[k].internalReference == remote.readProduct(qs[dp[k]].productId).defaultCode.GetOr(Text(""))
  }

  /** The selection loop: for each key of `lot_dict`, in insertion order, when its
      list holds more than one move, one row is appended per move. */
  method SelectDuplicates(lotDict: LotDict, remote: Remote) returns (duplicates: seq<ReportRow>)
    requires forall lot :: lot in lotDict.keys ==> lot in lotDict.groups
    ensures duplicates == DictRows(lotDict.keys, lotDict.groups, remote)
  {
    duplicates := [];
    for i := 0 to |lotDict.keys|
      invariant duplicates == DictRows(lotDict.keys[..i], lotDict.groups, remote)
    {
      var lotId := lotDict.keys[i];
      var moves := lotDict.groups[lotId];
      if |moves| > 1 {
        duplicates := AppendGroupRows(duplicates, moves, lotId, remote);
      }
      DictRowsAppend(lotDict.keys, i, lotDict.groups, remote);
    }
    assert lotDict.keys[..|lotDict.keys|] == lotDict.keys;
  }

  /** The inner loop of the selection: one row appended per move of the group, in
      the group's order. */
  method AppendGroupRows(rows: seq<ReportRow>, moves: seq<Quant>, lotId: LotId, remote: Remote)
    returns (result: seq<ReportRow>)
    ensures result == rows + GroupRows(moves, lotId, remote)
  {
    result := rows;
    for j := 0 to |moves|
      invariant result == rows + GroupRows(moves[..j], lotId, remote)
    {
      GroupRowsAppend(moves, j, lotId, remote);
      result := result + [MakeRow(moves[j], lotId, remote)];
    }
    assert moves[..|moves|] == moves;
  }

  /** One more move of the group gives one more row at the end. */
  lemma GroupRowsAppend(moves: seq<Quant>, j: nat, lot: LotId, remote: Remote)
    requires j < |moves|
    ensures GroupRows(moves[..j + 1], lot, remote) == GroupRows(moves[..j], lot, remote) + [MakeRow(moves[j], lot, remote)]
  {
    assert moves[..j + 1][..j] == moves[..j];
  }

  /** One more key visited gives that key's rows at the end. */
  lemma DictRowsAppend(keys: seq<LotId>, i: nat, groups: map<LotId, seq<Quant>>, remote: Remote)
    requires i < |keys|
    requires forall lot :: lot in keys ==> lot in groups
    ensures DictRows(keys[..i + 1], groups, remote) == DictRows(keys[..i], groups, remote)
      + (if |groups[keys[i]]| > 1 then GroupRows(groups[keys[i]], keys[i], remote) else [])
  {
    assert keys[..i + 1][..i] == keys[..i];
  }

  /** The whole duplicate pass: group the fetched quants by lot, then select. */
  method FindDuplicates(quants: seq<Quant>, remote: Remote) returns (duplicates: seq<ReportRow>)
    ensures IsDuplicateReport(quants, remote, duplicates)
  {
    var lotDict := GroupByLot(quants);
    duplicates := SelectDuplicates(lotDict, remote);
    DictRowsAtPositions(quants, lotDict.keys, lotDict.groups, remote);
  }

  /** The empty/non-empty branch of chk-odoo-dups.py:159-164. */
  datatype Outcome = NoDuplicatesFound | DuplicatesFound(rows: seq<ReportRow>)

  function Conclude(duplicates: seq<ReportRow>): (outcome: Outcome)
    ensures outcome.NoDuplicatesFound? <==> duplicates == []
    ensures outcome.DuplicatesFound? ==> outcome.rows == duplicates
  {
    if |duplicates| > 0 then DuplicatesFound(duplicates) else NoDuplicatesFound
  }

  /** The rows the loop builds from the grouped quants are, one for one, the rows of
      the quants at the reported positions, each looked up under its own lot. */
  lemma {:induction false} DictRowsAtPositions(qs: seq<Quant>, lots: seq<LotId>, groups: map<LotId, seq<Quant>>, remote: Remote)
    requires forall lot :: lot in lots ==> lot in groups && groups[lot] == Group(qs, lot)
    ensures |DictRows(lots, groups, remote)| == |Reported(qs, lots)|
    ensures forall k :: 0 <= k < |Reported(qs, lots)| ==>
      Reported(qs, lots)[k] < |qs|
      && DictRows(lots, groups, remote)[k] == MakeRow(qs[Reported(qs, lots)[k]], qs[Reported(qs, lots)[k]].lotId, remote)
  {
    if lots != [] {
      var rest := lots[..|lots| - 1];
      var lot := lots[|lots| - 1];
      DictRowsAtPositions(qs, rest, groups, remote);
      GroupAtPositions(qs, lot);
      PositionsOfLot(qs, lot);
    }
  }

  /** Over distinct lots, the reported positions are distinct, and a position is
      reported exactly when its lot is one of `lots` and holds more than one quant. */
  lemma {:induction false} ReportedPositions(qs: seq<Quant>, lots: seq<LotId>)
    requires Distinct(lots)
    ensures forall k :: 0 <= k < |Reported(qs, lots)| ==>
      Reported(qs, lots)[k] < |qs| && qs[Reported(qs, lots)[k]].lotId in lots
    ensures forall i :: 0 <= i < |qs| ==>
      (i in Reported(qs, lots) <==> qs[i].lotId in lots && |Positions(qs, qs[i].lotId)| > 1)
    ensures Distinct(Reported(qs, lots))
  {
    if lots != [] {
      var rest := lots[..|lots| - 1];
      var lot := lots[|lots| - 1];
      assert Distinct(rest);
      assert lot !in rest;
      assert lots == rest + [lot];
      ReportedPositions(qs, rest);
      PositionsOfLot(qs, lot);
    }
  }

  /** When `lots` are ordered by first appearance, so are the reported positions:
      by their lot's first appearance, then by input position. */
  lemma {:induction false} ReportedInOrder(qs: seq<Quant>, lots: seq<LotId>)
    requires forall a, b :: 0 <= a < b < |lots| ==> FirstIndex(qs, lots[a]) < FirstIndex(qs, lots[b])
    ensures forall k :: 0 <= k < |Reported(qs, lots)| ==> Reported(qs, lots)[k] < |qs|
    ensures forall a, b :: 0 <= a < b < |Reported(qs, lots)| ==>
      ReportedBefore(qs, Reported(qs, lots)[a], Reported(qs, lots)[b])
  {
    if lots != [] {
      var rest := lots[..|lots| - 1];
      var lot := lots[|lots| - 1];
      var ps := Positions(qs, lot);
      forall x | x in rest
        ensures FirstIndex(qs, x) < FirstIndex(qs, lot)
      {
        var m :| 0 <= m < |rest| && rest[m] == x;
        assert lots[m] == x;
      }
      ReportedInOrder(qs, rest);
      LotPositionsInOrder(qs, lot);
      EarlierLotsFirst(qs, rest, lot);
      ConcatInOrder(qs, Reported(qs, rest), if |ps| > 1 then ps else []);
    }
  }

  /** The positions of one lot are in report order. */
  lemma LotPositionsInOrder(qs: seq<Quant>, lot: LotId)
    ensures forall k :: 0 <= k < |Positions(qs, lot)| ==> Positions(qs, lot)[k] < |qs|
    ensures forall a, b :: 0 <= a < b < |Positions(qs, lot)| ==>
      ReportedBefore(qs, Positions(qs, lot)[a], Positions(qs, lot)[b])
  {
    PositionsOfLot(qs, lot);
  }

  /** Positions reported for lots that first appear before `lot` come before the
      positions of `lot`. */
  lemma EarlierLotsFirst(qs: seq<Quant>, lots: seq<LotId>, lot: LotId)
    requires forall x :: x in lots ==> FirstIndex(qs, x) < FirstIndex(qs, lot)
    ensures forall a, b :: 0 <= a < |Reported(qs, lots)| && 0 <= b < |Positions(qs, lot)| ==>
      Reported(qs, lots)[a] < |qs| && Positions(qs, lot)[b] < |qs|
      && ReportedBefore(qs, Reported(qs, lots)[a], Positions(qs, lot)[b])
  {
    ReportedLots(qs, lots);
    PositionsOfLot(qs, lot);
  }

  /** Every reported position is a position of one of `lots`. */
  lemma {:induction false} ReportedLots(qs: seq<Quant>, lots: seq<LotId>)
    ensures forall k :: 0 <= k < |Reported(qs, lots)| ==>
      Reported(qs, lots)[k] < |qs| && qs[Reported(qs, lots)[k]].lotId in lots
  {
    if lots != [] {
      ReportedLots(qs, lots[..|lots| - 1]);
      PositionsOfLot(qs, lots[|lots| - 1]);
    }
  }

  /** Two position lists, each in report order and the first wholly before the
      second, joined are in report order. */
  lemma ConcatInOrder(qs: seq<Quant>, prior: seq<nat>, tail: seq<nat>)
    requires forall k :: 0 <= k < |prior| ==> prior[k] < |qs|
    requires forall k :: 0 <= k < |tail| ==> tail[k] < |qs|
    requires forall a, b :: 0 <= a < b < |prior| ==> ReportedBefore(qs, prior[a], prior[b])
    requires forall a, b :: 0 <= a < b < |tail| ==> ReportedBefore(qs, tail[a], tail[b])
    requires forall a, b :: 0 <= a < |prior| && 0 <= b < |tail| ==> ReportedBefore(qs, prior[a], tail[b])
    ensures forall a, b :: 0 <= a < b < |prior + tail| ==>
      (prior + tail)[a] < |qs| && (prior + tail)[b] < |qs| && ReportedBefore(qs, (prior + tail)[a], (prior + tail)[b])
  {
    forall a, b | 0 <= a < b < |prior + tail|
      ensures (prior + tail)[a] < |qs| && (prior + tail)[b] < |qs| && ReportedBefore(qs, (prior + tail)[a], (prior + tail)[b])
    {
      if b < |prior| {
        assert (prior + tail)[a] == prior[a] && (prior + tail)[b] == prior[b];
      } else if a >= |prior| {
        assert (prior + tail)[a] == tail[a - |prior|] && (prior + tail)[b] == tail[b - |prior|];
      } else {
        assert (prior + tail)[a] == prior[a] && (prior + tail)[b] == tail[b - |prior|];
      }
    }
  }

  /** A lot holds more than one position exactly when some other quant shares it. */
  lemma SharesLotIffSeveralPositions(qs: seq<Quant>, i: nat)
    requires i < |qs|
    ensures SharesLot(qs, i) <==> |Positions(qs, qs[i].lotId)| > 1
  {
    var ps := Positions(qs, qs[i].lotId);
    PositionsOfLot(qs, qs[i].lotId);
    assert i in ps;
    if |ps| > 1 {
      var other := if ps[0] == i then ps[1] else ps[0];
      assert other != i && qs[other].lotId == qs[i].lotId;
    }
    if SharesLot(qs, i) {
      var j :| 0 <= j < |qs| && j != i && qs[j].lotId == qs[i].lotId;
      assert j in ps;
    }
  }

  /** The reported positions are each input position at most once, exactly those
      whose lot occurs more than once in the input, in the order of their lot's
      first appearance and, within one lot, in input order. */
  lemma DuplicateSelection(qs: seq<Quant>)
    ensures forall k :: 0 <= k < |DuplicatePositions(qs)| ==> DuplicatePositions(qs)[k] < |qs|
    ensures Distinct(DuplicatePositions(qs))
    ensures forall i :: 0 <= i < |qs| ==> (i in DuplicatePositions(qs) <==> SharesLot(qs, i))
    ensures forall a, b :: 0 <= a < b < |DuplicatePositions(qs)| ==>
      ReportedBefore(qs, DuplicatePositions(qs)[a], DuplicatePositions(qs)[b])
  {
    LotOrderIsFirstAppearance(qs);
    ReportedPositions(qs, LotOrder(qs));
    ReportedInOrder(qs, LotOrder(qs));
    forall i | 0 <= i < |qs|
      ensures i in DuplicatePositions(qs) <==> SharesLot(qs, i)
    {
      assert Occurs(qs, qs[i].lotId);
      SharesLotIffSeveralPositions(qs, i);
    }
  }

  /** Every group size is counted once: in the report when the group has more than
      one quant, among the singletons when it has one. */
  lemma {:induction false} SizesSplit(qs: seq<Quant>, lots: seq<LotId>)
    ensures TotalSize(qs, lots) == |Reported(qs, lots)| + SingletonCount(qs, lots)
  {
    if lots != [] {
      SizesSplit(qs, lots[..|lots| - 1]);
      GroupAtPositions(qs, lots[|lots| - 1]);
    }
  }

  /** The report has as many rows as there are fetched quants, less one for each lot
      that occurs exactly once. */
  lemma DuplicateCount(qs: seq<Quant>)
    ensures |DuplicatePositions(qs)| + SingletonCount(qs, LotOrder(qs)) == |qs|
  {
    SizesSplit(qs, LotOrder(qs));
    GroupSizesSumToInput(qs);
  }

  /** "No duplicates found." is reported exactly when no two fetched quants share a lot. */
  lemma NoDuplicatesIffLotsUnique(qs: seq<Quant>)
    ensures DuplicatePositions(qs) == [] <==>
      forall i, j :: 0 <= i < j < |qs| ==> qs[i].lotId != qs[j].lotId
  {
    DuplicateSelection(qs);
    var dp := DuplicatePositions(qs);
    if dp != [] {
      assert dp[0] in dp;
      var j :| 0 <= j < |qs| && j != dp[0] && qs[j].lotId == qs[dp[0]].lotId;
    } else {
      forall i, j | 0 <= i < j < |qs|
        ensures qs[i].lotId != qs[j].lotId
      {
        assert i !in dp;
        assert !SharesLot(qs, i);
      }
    }
  }
}
