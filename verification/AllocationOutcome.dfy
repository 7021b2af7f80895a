/**
 * When an allocation commits (src/modules/customer-orders/service.ts, allocation.ts): enough stock is
 * not enough, because a second ACTIVE row for the same line and lot breaks the partial unique index
 * (src/db/customer-orders-schema.ts) and rolls the whole transaction back.
 */
module AllocationOutcome {
  import opened Common
  import opened Fefo
  import opened Orders
  import opened OrderFacts

  /** No lot of the portions is held by the line already, and none occurs twice. */
  ghost predicate LotsFree(rows: seq<Allocation>, o: Id, line: nat, portions: seq<Portion>) {
    && (forall i :: 0 <= i < |portions| ==> !Claimed(rows, o, line, portions[i].key.lot))
    && (forall i, j :: 0 <= i < j < |portions| ==> portions[i].key.lot != portions[j].key.lot)
  }

  lemma ClaimedAfter(rows: seq<Allocation>, o: Id, line: nat, portions: seq<Portion>, lot: Lot)
    ensures Claimed(rows + RowsFor(o, line, portions), o, line, lot)
      <==> Claimed(rows, o, line, lot) || exists i :: 0 <= i < |portions| && portions[i].key.lot == lot
  {
    var after := rows + RowsFor(o, line, portions);
    if Claimed(rows, o, line, lot) {
      var i :| 0 <= i < |rows| && rows[i].status == Active && rows[i].order == o && rows[i].line == line &&
        rows[i].key.lot == lot;
      assert after[i] == rows[i];
    }
    if exists i :: 0 <= i < |portions| && portions[i].key.lot == lot {
      var i :| 0 <= i < |portions| && portions[i].key.lot == lot;
      assert after[|rows| + i].key.lot == lot && after[|rows| + i].status == Active;
    }
    if Claimed(after, o, line, lot) {
      var i :| 0 <= i < |after| && after[i].status == Active && after[i].order == o && after[i].line == line &&
        after[i].key.lot == lot;
      if i < |rows| {
        assert rows[i].key.lot == lot;
      } else {
        assert portions[i - |rows|].key.lot == lot;
      }
    }
  }

  lemma {:induction false} InsertAllIff(rows: seq<Allocation>, o: Id, line: nat, portions: seq<Portion>)
    ensures InsertAll(rows, o, line, portions).Ok? <==> LotsFree(rows, o, line, portions)
  {
    if portions != [] {
      var n := |portions| - 1;
      InsertAllIff(rows, o, line, portions[..n]);
      InsertAllAppends(rows, o, line, portions[..n]);
      ClaimedAfter(rows, o, line, portions[..n], portions[n].key.lot);
      FreeOneMore(rows, o, line, portions);
    }
  }

  lemma FreeOneMore(rows: seq<Allocation>, o: Id, line: nat, portions: seq<Portion>)
    requires portions != []
    ensures var n := |portions| - 1;
      LotsFree(rows, o, line, portions) <==>
        && LotsFree(rows, o, line, portions[..n])
        && !Claimed(rows, o, line, portions[n].key.lot)
        && forall i :: 0 <= i < n ==> portions[..n][i].key.lot != portions[n].key.lot
  {
    var n := |portions| - 1;
    assert forall i :: 0 <= i < n ==> portions[..n][i] == portions[i];
  }

  /**
   * One FEFO allocation commits exactly when the source is configured and has candidates, their
   * unreserved stock covers the need, and the line does not hold any of the lots drawn already.
   */
  lemma AllocateItemIff(onHand: map<Key, int>, rows: seq<Allocation>, o: Id, line: nat, source: Source, need: nat,
      view: StockView)
    ensures AllocateItem(onHand, rows, o, line, source, need, view).Ok? <==>
      && source in view.candidates
      && var keys := view.candidates[source];
      var available := Availability(onHand, rows, keys);
      && keys != [] && need <= Total(PositiveParts(available))
      && LotsFree(rows, o, line, Portions(keys, Taken(available, need)))
  {
    if source in view.candidates {
      var keys := view.candidates[source];
      var available := Availability(onHand, rows, keys);
      SelectionExact(true, keys, available, need);
      if Select(true, keys, available, need).Ok? {
        InsertAllIff(rows, o, line, Portions(keys, Taken(available, need)));
      }
    }
  }

  /** Otherwise it says why: no node configured, no stock row at all, the quantity missing, or the index. */
  lemma AllocateItemRefused(onHand: map<Key, int>, rows: seq<Allocation>, o: Id, line: nat, source: Source, need: nat,
      view: StockView)
    ensures var r := AllocateItem(onHand, rows, o, line, source, need, view);
      && (r == Err(Validation) <==> source !in view.candidates)
      && (r == Err(InsufficientStock(None)) <==> source in view.candidates && view.candidates[source] == [])
      && (source in view.candidates && view.candidates[source] != [] ==>
           var stock := Total(PositiveParts(Availability(onHand, rows, view.candidates[source])));
           && (need > stock ==> r == Err(InsufficientStock(Some(need - stock))))
           && (need <= stock ==> r.Ok? || r == Err(UniqueViolation)))
  {
    if source in view.candidates {
      var keys := view.candidates[source];
      var available := Availability(onHand, rows, keys);
      SelectionExact(true, keys, available, need);
      var picked := Select(true, keys, available, need);
      if picked.Ok? { InsertAllRefused(rows, o, line, picked.value); }
    }
  }

  lemma {:induction false} InsertAllRefused(rows: seq<Allocation>, o: Id, line: nat, portions: seq<Portion>)
    ensures InsertAll(rows, o, line, portions).Ok? || InsertAll(rows, o, line, portions) == Err(UniqueViolation)
  {
    if portions != [] { InsertAllRefused(rows, o, line, portions[..|portions| - 1]); }
  }

  const SHELF := Key(0, Lot(0, 0))
  const SHELF_VIEW := StockView(map[Outlet(0) := [SHELF]], {}, {})
  const TWICE := [Component(0, 2), Component(0, 3)]

  lemma ShelfPortions(available: int, need: nat)
    requires 0 < need <= available
    ensures Select(true, [SHELF], [available], need) == Ok([Portion(SHELF, need)])
  {
    var keys, av: seq<int> := [SHELF], [available];
    assert av[..0] == [] && keys[..0] == [];
    assert Taken(av, need) == [need];
    assert Total([need as int]) == need by { assert [need as int][..0] == []; }
    assert Portions(keys, Taken(av, need)) == [Portion(SHELF, need)] by {
      assert Taken(av, need)[..0] == [];
    }
  }

  lemma ShelfInsert(rows: seq<Allocation>, need: nat)
    ensures InsertAll(rows, 0, 0, [Portion(SHELF, need)]) == Insert(rows, 0, 0, Portion(SHELF, need))
  {
    assert [Portion(SHELF, need)][..0] == [];
  }

  const ON_HAND: map<Key, int> := map[SHELF := 10]
  const FIRST := [Allocation(0, 0, SHELF, 2, Active)]

  lemma FirstPick()
    ensures AllocateItem(ON_HAND, [], 0, 0, Outlet(0), 2, SHELF_VIEW) == Ok(FIRST)
  {
    assert Availability(ON_HAND, [], [SHELF]) == [10];
    ShelfPortions(10, 2);
    ShelfInsert([], 2);
    assert [] + FIRST == FIRST;
  }

  lemma SecondPick()
    ensures AllocateItem(ON_HAND, FIRST, 0, 0, Outlet(0), 3, SHELF_VIEW) == Err(UniqueViolation)
  {
    assert FIRST[..0] == [] && Reserved(FIRST, SHELF) == 2;
    assert Availability(ON_HAND, FIRST, [SHELF]) == [8];
    ShelfPortions(8, 3);
    ShelfInsert(FIRST, 3);
    assert FIRST[0].status == Active && FIRST[0].order == 0 && FIRST[0].line == 0 && FIRST[0].key.lot == SHELF.lot;
  }

  /** A recipe that lists one item twice cannot be allocated from a single lot, however much the lot holds. */
  lemma SameItemTwiceFails()
    ensures AllocateComponents(ON_HAND, [], 0, 0, TWICE, SHELF_VIEW) == Err(UniqueViolation)
  {
    assert TWICE[..1] == [Component(0, 2)] && TWICE[..1][..0] == [];
    FirstPick();
    assert AllocateComponents(ON_HAND, [], 0, 0, TWICE[..1], SHELF_VIEW) == Ok(FIRST);
    SecondPick();
  }
}
