/** The grouping pass of chk-odoo-dups.py:133-138: every fetched quant is appended to
    the list kept under its own lot id, the list being created the first time the
    lot is seen. */
module LotGrouping {
  import opened Inventory

  /** Lot ids in the order in which each is first seen: the key order of `lot_dict`. */
  function LotOrder(qs: seq<Quant>): seq<LotId>
  {
    if qs == [] then []
    else
      var prior := LotOrder(qs[..|qs| - 1]);
      var lot := qs[|qs| - 1].lotId;
      if lot in prior then prior else prior + [lot]
  }

  /** The quants of lot `lot`, in input order: the list `lot_dict[lot]`. */
  function Group(qs: seq<Quant>, lot: LotId): seq<Quant>
  {
    if qs == [] then []
    else Group(qs[..|qs| - 1], lot) + (if qs[|qs| - 1].lotId == lot then [qs[|qs| - 1]] else [])
  }

  /** The input positions of the quants of lot `lot`, in increasing order. */
  function Positions(qs: seq<Quant>, lot: LotId): seq<nat>
  {
    if qs == [] then []
    else Positions(qs[..|qs| - 1], lot) + (if qs[|qs| - 1].lotId == lot then [|qs| - 1] else [])
  }

  /** Sum of the sizes of the groups named by `lots`. */
  function TotalSize(qs: seq<Quant>, lots: seq<LotId>): nat
  {
    if lots == [] then 0
    else TotalSize(qs, lots[..|lots| - 1]) + |Group(qs, lots[|lots| - 1])|
  }

  /** The position at which lot `lot` first appears in `qs`, or `|qs|` when it does
      not appear. */
  function FirstIndex(qs: seq<Quant>, lot: LotId): (i: nat)
    ensures i <= |qs|
    ensures i < |qs| ==> qs[i].lotId == lot
    ensures forall j :: 0 <= j < i ==> qs[j].lotId != lot
  {
    if qs == [] then 0
    else if qs[0].lotId == lot then 0
    else
      assert forall j :: 1 <= j < |qs| ==> qs[1..][j - 1] == qs[j];
      1 + FirstIndex(qs[1..], lot)
  }

  /** The grouping loop. `lot_dict` starts empty; each quant creates its lot's key
      when that key is absent and is then appended to the key's list. */
  method GroupByLot(quants: seq<Quant>) returns (lotDict: LotDict)
    ensures lotDict.keys == LotOrder(quants)
    ensures forall lot :: lot in lotDict.groups <==> lot in lotDict.keys
    ensures forall lot :: lot in lotDict.groups ==> lotDict.groups[lot] == Group(quants, lot)
  {
    var keys: seq<LotId> := [];
    var groups: map<LotId, seq<Quant>> := map[];
    for i := 0 to |quants|
      invariant keys == LotOrder(quants[..i])
      invariant forall lot :: lot in groups <==> lot in keys
      invariant forall lot :: lot in groups ==> groups[lot] == Group(quants[..i], lot)
      invariant forall lot :: lot !in groups ==> Group(quants[..i], lot) == []
    {
      assert quants[..i + 1][..i] == quants[..i];
      var lotId := quants[i].lotId;
      if lotId !in groups {
        groups := groups[lotId := []];
        keys := keys + [lotId];
      }
      groups := groups[lotId := groups[lotId] + [quants[i]]];
    }
    assert quants[..|quants|] == quants;
    lotDict := LotDict(keys, groups);
  }

  /** The positions of a lot are exactly the indices of the quants carrying it,
      each once and in increasing order: every quant lies in one group only, the one
      of its own lot. */
  lemma PositionsOfLot(qs: seq<Quant>, lot: LotId)
    ensures forall k :: 0 <= k < |Positions(qs, lot)| ==>
      Positions(qs, lot)[k] < |qs| && qs[Positions(qs, lot)[k]].lotId == lot
    ensures forall a, b :: 0 <= a < b < |Positions(qs, lot)| ==>
      Positions(qs, lot)[a] < Positions(qs, lot)[b]
    ensures forall i :: 0 <= i < |qs| ==> (i in Positions(qs, lot) <==> qs[i].lotId == lot)
  {
    PositionsCarryLot(qs, lot);
    PositionsIncrease(qs, lot);
    PositionsComplete(qs, lot);
  }

  /** Each listed position is in range and carries the lot. */
  lemma {:induction false} PositionsCarryLot(qs: seq<Quant>, lot: LotId)
    ensures forall k :: 0 <= k < |Positions(qs, lot)| ==>
      Positions(qs, lot)[k] < |qs| && qs[Positions(qs, lot)[k]].lotId == lot
  {
    if qs != [] {
      var init := qs[..|qs| - 1];
      PositionsCarryLot(init, lot);
      assert forall i :: 0 <= i < |init| ==> init[i] == qs[i];
    }
  }

  /** Positions are listed in strictly increasing order. */
  lemma {:induction false} PositionsIncrease(qs: seq<Quant>, lot: LotId)
    ensures forall k :: 0 <= k < |Positions(qs, lot)| ==> Positions(qs, lot)[k] < |qs|
    ensures forall a, b :: 0 <= a < b < |Positions(qs, lot)| ==>
      Positions(qs, lot)[a] < Positions(qs, lot)[b]
  {
    if qs != [] {
      PositionsIncrease(qs[..|qs| - 1], lot);
    }
  }

  /** No position carrying the lot is missing. */
  lemma {:induction false} PositionsComplete(qs: seq<Quant>, lot: LotId)
    ensures forall i :: 0 <= i < |qs| && qs[i].lotId == lot ==> i in Positions(qs, lot)
  {
    if qs != [] {
      var init := qs[..|qs| - 1];
      PositionsComplete(init, lot);
      assert forall i :: 0 <= i < |init| ==> init[i] == qs[i];
    }
  }

  /** The group of a lot lists the quants at that lot's positions, in the same order:
      appending keeps the input's relative order. */
  lemma {:induction false} GroupAtPositions(qs: seq<Quant>, lot: LotId)
    ensures |Group(qs, lot)| == |Positions(qs, lot)|
    ensures forall k :: 0 <= k < |Group(qs, lot)| ==>
      Positions(qs, lot)[k] < |qs| && Group(qs, lot)[k] == qs[Positions(qs, lot)[k]]
  {
    PositionsOfLot(qs, lot);
    if qs != [] {
      var init := qs[..|qs| - 1];
      GroupAtPositions(init, lot);
      assert forall i :: 0 <= i < |init| ==> init[i] == qs[i];
    }
  }

  /** A group is non-empty exactly when its lot occurs in the input. */
  lemma GroupEmptyIffAbsent(qs: seq<Quant>, lot: LotId)
    ensures Group(qs, lot) == [] <==> !Occurs(qs, lot)
  {
    GroupAtPositions(qs, lot);
    PositionsOfLot(qs, lot);
    if Occurs(qs, lot) {
      var i :| 0 <= i < |qs| && qs[i].lotId == lot;
      assert i in Positions(qs, lot);
    }
  }

  /** The keys of `lot_dict` are the distinct lot ids of the input, each once, in the
      order of their first appearance. */
  lemma LotOrderIsFirstAppearance(qs: seq<Quant>)
    ensures Distinct(LotOrder(qs))
    ensures forall lot :: lot in LotOrder(qs) <==> Occurs(qs, lot)
    ensures forall a, b :: 0 <= a < b < |LotOrder(qs)| ==>
      FirstIndex(qs, LotOrder(qs)[a]) < FirstIndex(qs, LotOrder(qs)[b])
  {
    LotOrderKeys(qs);
    LotOrderSorted(qs);
  }

  /** Each key once, and a lot is a key exactly when some quant carries it. */
  lemma {:induction false} LotOrderKeys(qs: seq<Quant>)
    ensures Distinct(LotOrder(qs))
    ensures forall lot :: lot in LotOrder(qs) <==> Occurs(qs, lot)
  {
    if qs != [] {
      var init := qs[..|qs| - 1];
      var last := qs[|qs| - 1].lotId;
      LotOrderKeys(init);
      assert forall i :: 0 <= i < |init| ==> init[i] == qs[i];
      assert Occurs(qs, last) by { assert qs[|qs| - 1].lotId == last; }
      forall lot | Occurs(qs, lot) && lot != last
        ensures Occurs(init, lot)
      {
        var i :| 0 <= i < |qs| && qs[i].lotId == lot;
        assert init[i].lotId == lot;
      }
    }
  }

  /** Keys are ordered by the position of their first appearance. */
  lemma {:induction false} LotOrderSorted(qs: seq<Quant>)
    ensures forall a, b :: 0 <= a < b < |LotOrder(qs)| ==>
      FirstIndex(qs, LotOrder(qs)[a]) < FirstIndex(qs, LotOrder(qs)[b])
  {
    if qs != [] {
      var init := qs[..|qs| - 1];
      var last := qs[|qs| - 1].lotId;
      var prior := LotOrder(init);
      LotOrderSorted(init);
      LotOrderKeys(init);
      forall lot | lot in prior
        ensures FirstIndex(qs, lot) == FirstIndex(init, lot) < |init|
      {
        FirstIndexExtend(qs, lot);
      }
      if last !in prior {
        FirstIndexExtend(qs, last);
        assert FirstIndex(qs, last) == |init|;
      }
    }
  }

  /** Appending a quant keeps the first appearance of every lot already present, and
      puts that of an absent lot at or after the old end. */
  lemma FirstIndexExtend(qs: seq<Quant>, lot: LotId)
    requires qs != []
    ensures var init := qs[..|qs| - 1];
      && (Occurs(init, lot) ==> FirstIndex(init, lot) < |init| && FirstIndex(qs, lot) == FirstIndex(init, lot))
      && (!Occurs(init, lot) ==> FirstIndex(qs, lot) >= |init|)
  {
    var init := qs[..|qs| - 1];
    assert forall i :: 0 <= i < |init| ==> init[i] == qs[i];
    var f := FirstIndex(init, lot);
    var g := FirstIndex(qs, lot);
    if Occurs(init, lot) {
      var i :| 0 <= i < |init| && init[i].lotId == lot;
      assert f <= i;
      assert qs[f].lotId == lot;
      assert g <= f;
    }
  }

  /** The group sizes of all keys sum to the number of fetched quants. */
  lemma {:induction false} GroupSizesSumToInput(qs: seq<Quant>)
    ensures TotalSize(qs, LotOrder(qs)) == |qs|
  {
    if qs != [] {
      var init := qs[..|qs| - 1];
      var q := qs[|qs| - 1];
      assert init + [q] == qs;
      GroupSizesSumToInput(init);
      LotOrderIsFirstAppearance(init);
      TotalSizeAfterAppend(init, q, LotOrder(init));
      if q.lotId !in LotOrder(init) {
        var keys := LotOrder(init);
        assert (keys + [q.lotId])[..|keys|] == keys;
        GroupEmptyIffAbsent(init, q.lotId);
      }
    }
  }

  /** Appending one quant grows by one the total size over distinct keys that name
      its lot, and leaves it unchanged otherwise. */
  lemma {:induction false} TotalSizeAfterAppend(init: seq<Quant>, q: Quant, lots: seq<LotId>)
    requires Distinct(lots)
    ensures TotalSize(init + [q], lots) == TotalSize(init, lots) + (if q.lotId in lots then 1 else 0)
  {
    if lots != [] {
      var rest := lots[..|lots| - 1];
      var lot := lots[|lots| - 1];
      assert Distinct(rest);
      assert lot !in rest;
      assert (init + [q])[..|init|] == init;
      assert lots == rest + [lot];
      TotalSizeAfterAppend(init, q, rest);
    }
  }
}
