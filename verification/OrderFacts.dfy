/**
 * What single order transactions do to the allocation table: reservations, coverage of demand,
 * movement plans, the posting service's withdrawals, and the fulfilment history.
 */
module OrderFacts {
  import opened Common
  import opened Fefo
  import opened Orders

  // ---------------------------------------------------------------------------
  // Reading the allocation table

  /** Two versions of one row differ in status at most. */
  predicate SameRow(a: Allocation, b: Allocation) {
    a.order == b.order && a.line == b.line && a.key == b.key && a.quantity == b.quantity
  }

  predicate Owns(orders: seq<Order>, a: Allocation, o: Id, group: Group)
    requires o < |orders|
  {
    a.order == o && a.line < |orders[o].lines| && GroupOf(orders[o].lines[a.line]) == group
  }

  /** The movement plan of a group whatever the status of its rows. */
  function FullPlan(orders: seq<Order>, allocations: seq<Allocation>, o: Id, group: Group): seq<Movement>
    requires o < |orders|
  {
    if allocations == [] then [] else
      var n := |allocations| - 1;
      var before := FullPlan(orders, allocations[..n], o, group);
      if Owns(orders, allocations[n], o, group)
      then before + [Movement(n, allocations[n].key, allocations[n].quantity)]
      else before
  }

  lemma {:induction false} PlanIsFull(orders: seq<Order>, allocations: seq<Allocation>, o: Id, group: Group)
    requires o < |orders|
    requires forall i :: 0 <= i < |allocations| && allocations[i].order == o ==> allocations[i].status == Active
    ensures Plan(orders, allocations, o, group) == FullPlan(orders, allocations, o, group)
  {
    if allocations != [] {
      PlanIsFull(orders, allocations[..|allocations| - 1], o, group);
    }
  }

  /** A plan is untouched by status changes, by rows of other orders and by edits of other orders. */
  lemma {:induction false} FullPlanStable(orders: seq<Order>, rows: seq<Allocation>, orders': seq<Order>,
      rows': seq<Allocation>, o: Id, group: Group)
    requires o < |orders| && o < |orders'| && orders'[o].lines == orders[o].lines
    requires |rows| <= |rows'|
    requires forall i :: 0 <= i < |rows| ==> SameRow(rows[i], rows'[i])
    requires forall i :: |rows| <= i < |rows'| ==> rows'[i].order != o
    ensures FullPlan(orders', rows', o, group) == FullPlan(orders, rows, o, group)
    decreases |rows'|
  {
    if |rows'| > |rows| {
      FullPlanStable(orders, rows, orders', rows'[..|rows'| - 1], o, group);
    } else if rows != [] {
      var n := |rows| - 1;
      FullPlanStable(orders, rows[..n], orders', rows'[..n], o, group);
      assert SameRow(rows[n], rows'[n]);
    }
  }

  /** A movement of a group's plan: an owned row, with the row's own key and quantity. */
  predicate PlanEntry(orders: seq<Order>, rows: seq<Allocation>, o: Id, group: Group, m: Movement)
    requires o < |orders|
  {
    && m.allocation < |rows| && Owns(orders, rows[m.allocation], o, group)
    && m.key == rows[m.allocation].key && m.quantity == rows[m.allocation].quantity
  }

  lemma {:induction false} FullPlanEntry(orders: seq<Order>, rows: seq<Allocation>, o: Id, group: Group, j: nat)
    requires o < |orders| && j < |FullPlan(orders, rows, o, group)|
    ensures PlanEntry(orders, rows, o, group, FullPlan(orders, rows, o, group)[j])
  {
    var n := |rows| - 1;
    if j < |FullPlan(orders, rows[..n], o, group)| {
      FullPlanEntry(orders, rows[..n], o, group, j);
    }
  }

  /** A plan lists its rows in table order, so none twice. */
  lemma {:induction false} FullPlanOrdered(orders: seq<Order>, rows: seq<Allocation>, o: Id, group: Group, i: nat,
      j: nat)
    requires o < |orders| && i < j < |FullPlan(orders, rows, o, group)|
    ensures FullPlan(orders, rows, o, group)[i].allocation < FullPlan(orders, rows, o, group)[j].allocation
  {
    var n := |rows| - 1;
    var before := FullPlan(orders, rows[..n], o, group);
    if j < |before| {
      FullPlanOrdered(orders, rows[..n], o, group, i, j);
    } else {
      FullPlanEntry(orders, rows[..n], o, group, i);
    }
  }

  lemma {:induction false} FullPlanComplete(orders: seq<Order>, rows: seq<Allocation>, o: Id, group: Group, i: nat)
    requires o < |orders| && i < |rows| && Owns(orders, rows[i], o, group)
    ensures Carries(FullPlan(orders, rows, o, group), i)
  {
    var n := |rows| - 1;
    var before := FullPlan(orders, rows[..n], o, group);
    var p := FullPlan(orders, rows, o, group);
    if i < n {
      FullPlanComplete(orders, rows[..n], o, group, i);
      var j :| 0 <= j < |before| && before[j].allocation == i;
      assert p[j].allocation == i;
    } else {
      assert p[|before|].allocation == i;
    }
  }

  /** A plan carries exactly the rows its group owns. */
  lemma PlanCarries(orders: seq<Order>, rows: seq<Allocation>, o: Id, group: Group, i: nat)
    requires o < |orders| && i < |rows|
    ensures Carries(FullPlan(orders, rows, o, group), i) <==> Owns(orders, rows[i], o, group)
  {
    var p := FullPlan(orders, rows, o, group);
    if Carries(p, i) {
      var j :| 0 <= j < |p| && p[j].allocation == i;
      FullPlanEntry(orders, rows, o, group, j);
    }
    if Owns(orders, rows[i], o, group) {
      FullPlanComplete(orders, rows, o, group, i);
    }
  }

  lemma PlanMember(orders: seq<Order>, rows: seq<Allocation>, o: Id, group: Group, m: Movement)
    requires o < |orders| && m in FullPlan(orders, rows, o, group)
    ensures PlanEntry(orders, rows, o, group, m)
  {
    var p := FullPlan(orders, rows, o, group);
    var j :| 0 <= j < |p| && p[j] == m;
    FullPlanEntry(orders, rows, o, group, j);
  }

  lemma CarriesEither(first: seq<Movement>, second: seq<Movement>, i: Id)
    ensures Carries(first + second, i) <==> Carries(first, i) || Carries(second, i)
  {
    if Carries(first, i) {
      var j :| 0 <= j < |first| && first[j].allocation == i;
      assert (first + second)[j].allocation == i;
    }
    if Carries(second, i) {
      var j :| 0 <= j < |second| && second[j].allocation == i;
      assert (first + second)[|first| + j].allocation == i;
    }
  }

  // ---------------------------------------------------------------------------
  // Quantities at a balance row

  /** Quantity a list of movements takes from one balance row. */
  function MovedAt(movements: seq<Movement>, key: Key): nat {
    if movements == [] then 0 else
      var n := |movements| - 1;
      MovedAt(movements[..n], key) + (if movements[n].key == key then movements[n].quantity else 0)
  }

  function OwnedAt(orders: seq<Order>, rows: seq<Allocation>, o: Id, group: Group, key: Key): (w: seq<int>)
    requires o < |orders|
    ensures |w| == |rows|
  {
    seq(|rows|, i requires 0 <= i < |rows| =>
      if Owns(orders, rows[i], o, group) && rows[i].key == key then rows[i].quantity else 0)
  }

  lemma {:induction false} PlanMovesOwned(orders: seq<Order>, rows: seq<Allocation>, o: Id, group: Group, key: Key)
    requires o < |orders|
    ensures MovedAt(FullPlan(orders, rows, o, group), key) == Total(OwnedAt(orders, rows, o, group, key))
  {
    if rows != [] {
      var n := |rows| - 1;
      PlanMovesOwned(orders, rows[..n], o, group, key);
      var w := OwnedAt(orders, rows, o, group, key);
      assert w[..n] == OwnedAt(orders, rows[..n], o, group, key);
      var before := FullPlan(orders, rows[..n], o, group);
      var p := FullPlan(orders, rows, o, group);
      if Owns(orders, rows[n], o, group) {
        assert p[..|before|] == before;
      }
    }
  }

  /** A withdrawal takes from every balance row exactly what its movements name, and no row goes negative. */
  lemma {:induction false} WithdrawExact(onHand: map<Key, int>, movements: seq<Movement>)
    ensures var r := Withdraw(onHand, movements);
      r.Some? ==>
        && r.value.Keys == onHand.Keys
        && (forall k :: k in onHand ==> r.value[k] == onHand[k] - MovedAt(movements, k))
        && (forall k :: k !in onHand ==> MovedAt(movements, k) == 0)
        && ((forall k :: k in onHand ==> onHand[k] >= 0) ==> forall k :: k in onHand ==> r.value[k] >= 0)
  {
    if movements != [] {
      WithdrawExact(onHand, movements[..|movements| - 1]);
    }
  }

  lemma {:induction false} MovedAtPrefix(movements: seq<Movement>, n: nat, key: Key)
    requires n <= |movements|
    ensures MovedAt(movements[..n], key) <= MovedAt(movements, key)
  {
    if n == |movements| {
      assert movements[..n] == movements;
    } else {
      var m := |movements| - 1;
      MovedAtPrefix(movements[..m], n, key);
      assert movements[..m][..n] == movements[..n];
    }
  }

  /** The balance check passes whenever each row holds what the whole plan takes from it. */
  lemma {:induction false} WithdrawFits(onHand: map<Key, int>, movements: seq<Movement>)
    requires forall m :: m in movements ==> m.key in onHand
    requires forall k :: k in onHand ==> MovedAt(movements, k) <= onHand[k]
    ensures Withdraw(onHand, movements).Some?
  {
    if movements != [] {
      var n := |movements| - 1;
      forall k | k in onHand ensures MovedAt(movements[..n], k) <= onHand[k] {
        MovedAtPrefix(movements, n, k);
      }
      WithdrawFits(onHand, movements[..n]);
      WithdrawExact(onHand, movements[..n]);
      assert movements[n] in movements;
      assert MovedAt(movements, movements[n].key) == MovedAt(movements[..n], movements[n].key) + movements[n].quantity;
    }
  }

  lemma {:induction false} ReservedConcat(s: seq<Allocation>, t: seq<Allocation>, key: Key)
    ensures Reserved(s + t, key) == Reserved(s, key) + Reserved(t, key)
  {
    if t == [] {
      assert s + t == s;
    } else {
      var n := |t| - 1;
      ReservedConcat(s, t[..n], key);
      assert (s + t)[..|s| + n] == s + t[..n];
    }
  }

  // ---------------------------------------------------------------------------
  // Demand and coverage

  /** A filter on items: one item, or any. */
  predicate Matches(filter: Option<Id>, item: Id) { filter.None? || filter.value == item }

  function ComponentDemand(components: seq<Component>, item: Option<Id>): nat {
    if components == [] then 0 else
      var n := |components| - 1;
      ComponentDemand(components[..n], item) + (if Matches(item, components[n].item) then components[n].quantity else 0)
  }

  /** What a line needs of one item (or in all): its base quantity, or the sum of its components. */
  function Demand(line: Line, item: Option<Id>): nat {
    if line.owner.ComponentSnapshot? then ComponentDemand(line.owner.components, item)
    else if Matches(item, line.item) then line.baseQuantity else 0
  }

  /** Quantity of one item (or in all) held by the rows of one line. */
  function RowsTotal(rows: seq<Allocation>, o: Id, line: nat, item: Option<Id>): nat {
    if rows == [] then 0 else
      var n := |rows| - 1;
      RowsTotal(rows[..n], o, line, item)
      + (if rows[n].order == o && rows[n].line == line && Matches(item, rows[n].key.lot.item)
         then rows[n].quantity else 0)
  }

  lemma {:induction false} RowsTotalConcat(s: seq<Allocation>, t: seq<Allocation>, o: Id, line: nat, item: Option<Id>)
    ensures RowsTotal(s + t, o, line, item) == RowsTotal(s, o, line, item) + RowsTotal(t, o, line, item)
  {
    if t == [] {
      assert s + t == s;
    } else {
      var n := |t| - 1;
      RowsTotalConcat(s, t[..n], o, line, item);
      assert (s + t)[..|s| + n] == s + t[..n];
    }
  }

  lemma {:induction false} RowsTotalSame(s: seq<Allocation>, t: seq<Allocation>, o: Id, line: nat, item: Option<Id>)
    requires |s| == |t| && forall i :: 0 <= i < |s| ==> SameRow(s[i], t[i])
    ensures RowsTotal(s, o, line, item) == RowsTotal(t, o, line, item)
  {
    if s != [] {
      var n := |s| - 1;
      RowsTotalSame(s[..n], t[..n], o, line, item);
      assert SameRow(s[n], t[n]);
    }
  }

  lemma CoversSame(s: seq<Allocation>, t: seq<Allocation>, o: Id, ell: nat, line: Line)
    requires |s| == |t| && forall i :: 0 <= i < |s| ==> SameRow(s[i], t[i])
    ensures Covers(s, o, ell, line) ==> Covers(t, o, ell, line)
    ensures LineSettled(s, o, ell, line) ==> LineSettled(t, o, ell, line)
  {
    forall item ensures RowsTotal(t, o, ell, item) == RowsTotal(s, o, ell, item) {
      RowsTotalSame(s, t, o, ell, item);
    }
    if NoRows(s, o, ell) {
      assert NoRows(t, o, ell) by {
        forall i | 0 <= i < |t| ensures !(t[i].order == o && t[i].line == ell) {
          assert SameRow(s[i], t[i]);
        }
      }
    }
  }

  lemma {:induction false} RowsTotalNone(rows: seq<Allocation>, o: Id, line: nat, item: Option<Id>)
    requires forall i :: 0 <= i < |rows| ==>
      !(rows[i].order == o && rows[i].line == line && Matches(item, rows[i].key.lot.item))
    ensures RowsTotal(rows, o, line, item) == 0
  {
    if rows != [] { RowsTotalNone(rows[..|rows| - 1], o, line, item); }
  }

  // ---------------------------------------------------------------------------
  // What allocation writes

  /** SQL returns each balance row once, and only rows of the item asked for. */
  ghost predicate WellRead(view: StockView) {
    forall source :: source in view.candidates ==>
      && Distinct(view.candidates[source])
      && (forall k :: k in view.candidates[source] ==> k.lot.item == source.item)
  }

  /** `added` are fresh ACTIVE rows for lines `from <= line < to` of order `o`, backed by balance rows. */
  predicate Fresh(added: seq<Allocation>, onHand: map<Key, int>, o: Id, from: nat, to: nat) {
    forall i :: 0 <= i < |added| ==>
      && added[i].order == o && from <= added[i].line < to
      && added[i].status == Active && added[i].quantity > 0 && added[i].key in onHand
  }

  /** Every key that gains a reservation stays within its on-hand balance. */
  ghost predicate WithinOnHand(rows: seq<Allocation>, added: seq<Allocation>, onHand: map<Key, int>) {
    forall k :: Reserved(added, k) > 0 ==> k in onHand && Reserved(rows + added, k) <= onHand[k]
  }

  function RowsFor(o: Id, line: nat, portions: seq<Portion>): (rows: seq<Allocation>)
    ensures |rows| == |portions|
  {
    seq(|portions|, i requires 0 <= i < |portions| =>
      Allocation(o, line, portions[i].key, portions[i].quantity, Active))
  }

  lemma {:induction false} InsertAllAppends(rows: seq<Allocation>, o: Id, line: nat, portions: seq<Portion>)
    ensures var r := InsertAll(rows, o, line, portions);
      r.Ok? ==> r.value == rows + RowsFor(o, line, portions)
  {
    if portions == [] {
      assert rows + RowsFor(o, line, portions) == rows;
    } else {
      var n := |portions| - 1;
      InsertAllAppends(rows, o, line, portions[..n]);
      assert RowsFor(o, line, portions) ==
        RowsFor(o, line, portions[..n]) + [Allocation(o, line, portions[n].key, portions[n].quantity, Active)];
    }
  }

  lemma {:induction false} RowsForTotal(o: Id, line: nat, portions: seq<Portion>, soleItem: Id, item: Option<Id>)
    requires forall p :: p in portions ==> p.key.lot.item == soleItem
    ensures RowsTotal(RowsFor(o, line, portions), o, line, item) == if Matches(item, soleItem)
      then Total(Quantities(portions)) else 0
  {
    if portions != [] {
      var n := |portions| - 1;
      RowsForTotal(o, line, portions[..n], soleItem, item);
      assert RowsFor(o, line, portions)[..n] == RowsFor(o, line, portions[..n]);
      assert Quantities(portions)[..n] == Quantities(portions[..n]);
    }
  }

  lemma {:induction false} RowsForReserved(o: Id, line: nat, portions: seq<Portion>, key: Key)
    ensures Reserved(RowsFor(o, line, portions), key) == DrawnAt(portions, key)
  {
    if portions != [] {
      var n := |portions| - 1;
      RowsForReserved(o, line, portions[..n], key);
      assert RowsFor(o, line, portions)[..n] == RowsFor(o, line, portions[..n]);
    }
  }

  /** A selection's portions are of the candidates' item, positive, and from rows with a balance. */
  lemma PortionsGood(onHand: map<Key, int>, rows: seq<Allocation>, keys: seq<Key>, need: nat, item: Id, p: Portion)
    requires forall k :: k in keys ==> k.lot.item == item
    requires Select(true, keys, Availability(onHand, rows, keys), need).Ok?
    requires p in Select(true, keys, Availability(onHand, rows, keys), need).value
    ensures p.key.lot.item == item && p.quantity > 0 && p.key in onHand
  {
    var available := Availability(onHand, rows, keys);
    SelectionExact(true, keys, available, need);
    var i :| 0 <= i < |keys| && p.key == keys[i] && p.quantity <= available[i];
    assert keys[i] in keys;
  }

  /** Each balance row stays within its on-hand quantity once the selected rows are added. */
  lemma DrawFits(onHand: map<Key, int>, rows: seq<Allocation>, keys: seq<Key>, need: nat, o: Id, line: nat, k: Key)
    requires Distinct(keys)
    requires Select(true, keys, Availability(onHand, rows, keys), need).Ok?
    ensures var added := RowsFor(o, line, Select(true, keys, Availability(onHand, rows, keys), need).value);
      Reserved(added, k) > 0 ==> k in onHand && Reserved(rows + added, k) <= onHand[k]
  {
    var available := Availability(onHand, rows, keys);
    var portions := Select(true, keys, available, need).value;
    RowsForReserved(o, line, portions, k);
    DrawWithinAvailable(keys, available, need, k);
    ReservedConcat(rows, RowsFor(o, line, portions), k);
    if k in keys {
      var i :| 0 <= i < |keys| && keys[i] == k;
      assert available[i] == Lookup(onHand, k) - Reserved(rows, k);
    }
  }

  /** One FEFO allocation adds rows of the right item that sum to the need and fit the balances. */
  lemma AllocateItemAdds(onHand: map<Key, int>, rows: seq<Allocation>, o: Id, line: nat, source: Source, need: nat,
      view: StockView)
    returns (added: seq<Allocation>)
    requires WellRead(view)
    ensures var r := AllocateItem(onHand, rows, o, line, source, need, view);
      r.Ok? ==>
        && r.value == rows + added
        && Fresh(added, onHand, o, line, line + 1)
        && WithinOnHand(rows, added, onHand)
        && (forall item :: RowsTotal(added, o, line, item) == if Matches(item, source.item) then need else 0)
  {
    added := [];
    if AllocateItem(onHand, rows, o, line, source, need, view).Ok? {
      var keys := view.candidates[source];
      var portions := Select(true, keys, Availability(onHand, rows, keys), need).value;
      InsertAllAppends(rows, o, line, portions);
      added := RowsFor(o, line, portions);
      forall p | p in portions ensures p.key.lot.item == source.item && p.quantity > 0 && p.key in onHand {
        PortionsGood(onHand, rows, keys, need, source.item, p);
      }
      SelectionExact(true, keys, Availability(onHand, rows, keys), need);
      forall item ensures RowsTotal(added, o, line, item) == if Matches(item, source.item) then need else 0 {
        RowsForTotal(o, line, portions, source.item, item);
      }
      forall k ensures Reserved(added, k) > 0 ==> k in onHand && Reserved(rows + added, k) <= onHand[k] {
        DrawFits(onHand, rows, keys, need, o, line, k);
      }
    }
  }

  /** Two successive additions are one addition. */
  lemma AddedTwice(rows: seq<Allocation>, first: seq<Allocation>, second: seq<Allocation>, onHand: map<Key, int>)
    requires WithinOnHand(rows, first, onHand)
    requires WithinOnHand(rows + first, second, onHand)
    ensures rows + first + second == rows + (first + second)
    ensures WithinOnHand(rows, first + second, onHand)
  {
    assert rows + first + second == rows + (first + second);
    forall k | Reserved(first + second, k) > 0
      ensures k in onHand && Reserved(rows + (first + second), k) <= onHand[k]
    {
      ReservedConcat(first, second, k);
      ReservedConcat(rows + first, second, k);
      if Reserved(second, k) == 0 {
        assert Reserved(rows + first, k) <= onHand[k];
      }
    }
  }

  lemma ComponentTotals(first: seq<Allocation>, second: seq<Allocation>, o: Id, line: nat, components: seq<Component>)
    requires components != []
    requires var n := |components| - 1;
      && (forall item :: RowsTotal(first, o, line, item) == ComponentDemand(components[..n], item))
      && (forall item :: RowsTotal(second, o, line, item)
           == if Matches(item, components[n].item) then components[n].quantity else 0)
    ensures forall item :: RowsTotal(first + second, o, line, item) == ComponentDemand(components, item)
  {
    forall item ensures RowsTotal(first + second, o, line, item) == ComponentDemand(components, item) {
      RowsTotalConcat(first, second, o, line, item);
    }
  }

  lemma FreshTwice(first: seq<Allocation>, second: seq<Allocation>, onHand: map<Key, int>, o: Id, from: nat, to: nat)
    requires Fresh(first, onHand, o, from, to) && Fresh(second, onHand, o, from, to)
    ensures Fresh(first + second, onHand, o, from, to)
  {
  }

  lemma {:induction false} AllocateComponentsAdds(onHand: map<Key, int>, rows: seq<Allocation>, o: Id, line: nat,
      components: seq<Component>, view: StockView)
    returns (added: seq<Allocation>)
    requires WellRead(view)
    ensures var r := AllocateComponents(onHand, rows, o, line, components, view);
      r.Ok? ==>
        && r.value == rows + added
        && Fresh(added, onHand, o, line, line + 1)
        && WithinOnHand(rows, added, onHand)
        && (forall item :: RowsTotal(added, o, line, item) == ComponentDemand(components, item))
  {
    added := [];
    if components == [] {
      assert rows + added == rows;
    } else {
      var n := |components| - 1;
      var r := AllocateComponents(onHand, rows, o, line, components, view);
      var first := AllocateComponentsAdds(onHand, rows, o, line, components[..n], view);
      var second := AllocateItemAdds(onHand, rows + first, o, line, Outlet(components[n].item), components[n].quantity,
        view);
      if r.Ok? {
        added := first + second;
        AddedTwice(rows, first, second, onHand);
        FreshTwice(first, second, onHand, o, line, line + 1);
        ComponentTotals(first, second, o, line, components);
      }
    }
  }

  /** The rows added for one line cover its demand exactly, or the line is a deferred job-order line. */
  ghost predicate Covers(added: seq<Allocation>, o: Id, ell: nat, line: Line) {
    forall item :: RowsTotal(added, o, ell, item) == Demand(line, item)
  }

  lemma AllocateJobOutputAdds(onHand: map<Key, int>, rows: seq<Allocation>, o: Id, ell: nat, line: Line,
      view: StockView)
    returns (added: seq<Allocation>)
    requires WellRead(view) && line.owner.JobOrder?
    ensures var r := AllocateJobOutput(onHand, rows, o, ell, line, view);
      r.Ok? ==>
        && r.value == rows + added && Fresh(added, onHand, o, ell, ell + 1)
        && WithinOnHand(rows, added, onHand) && Covers(added, o, ell, line)
  {
    added := AllocateItemAdds(onHand, rows, o, ell, JobWarehouse(line.owner.job, line.item), line.baseQuantity, view);
  }

  lemma AllocateLineAdds(onHand: map<Key, int>, rows: seq<Allocation>, o: Id, ell: nat, line: Line, view: StockView)
    returns (added: seq<Allocation>)
    requires WellRead(view)
    ensures var r := AllocateLine(onHand, rows, o, ell, line, view);
      r.Ok? ==>
        && r.value == rows + added && Fresh(added, onHand, o, ell, ell + 1)
        && WithinOnHand(rows, added, onHand)
        && (Covers(added, o, ell, line) || (line.owner.JobOrder? && added == []))
  {
    added := [];
    match line.owner
    case StockedOutput =>
      added := AllocateItemAdds(onHand, rows, o, ell, Outlet(line.item), line.baseQuantity, view);
    case JobOrder(job) =>
      if job in view.completedJobs {
        added := AllocateJobOutputAdds(onHand, rows, o, ell, line, view);
      } else {
        assert rows + added == rows;
      }
    case ComponentSnapshot(components) =>
      if components != [] {
        added := AllocateComponentsAdds(onHand, rows, o, ell, components, view);
      }
  }

  /** The state of the lines of one order in its own rows: covered, or a deferred job-order line. */
  ghost predicate LineSettled(rows: seq<Allocation>, o: Id, ell: nat, line: Line) {
    Covers(rows, o, ell, line) || (line.owner.JobOrder? && NoRows(rows, o, ell))
  }

  predicate NoRows(rows: seq<Allocation>, o: Id, ell: nat) {
    forall i :: 0 <= i < |rows| ==> !(rows[i].order == o && rows[i].line == ell)
  }

  /** Rows of other lines say nothing about line `ell`. */
  lemma CoversConcat(first: seq<Allocation>, second: seq<Allocation>, o: Id, ell: nat, line: Line)
    requires (NoRows(first, o, ell) && Covers(second, o, ell, line))
      || (Covers(first, o, ell, line) && NoRows(second, o, ell))
    ensures Covers(first + second, o, ell, line)
  {
    forall item ensures RowsTotal(first + second, o, ell, item) == Demand(line, item) {
      RowsTotalConcat(first, second, o, ell, item);
      if NoRows(first, o, ell) && Covers(second, o, ell, line) {
        RowsTotalNone(first, o, ell, item);
      } else {
        RowsTotalNone(second, o, ell, item);
      }
    }
  }

  lemma FreshJoined(first: seq<Allocation>, second: seq<Allocation>, onHand: map<Key, int>, o: Id, n: nat)
    requires Fresh(first, onHand, o, 0, n) && Fresh(second, onHand, o, n, n + 1)
    ensures Fresh(first + second, onHand, o, 0, n + 1)
  {
  }

  lemma {:induction false} AllocateLinesAdds(onHand: map<Key, int>, rows: seq<Allocation>, o: Id, lines: seq<Line>,
      view: StockView)
    returns (added: seq<Allocation>)
    requires WellRead(view)
    ensures var r := AllocateLines(onHand, rows, o, lines, view);
      r.Ok? ==>
        && r.value == rows + added && Fresh(added, onHand, o, 0, |lines|)
        && WithinOnHand(rows, added, onHand)
        && (forall ell :: 0 <= ell < |lines| ==> LineSettled(added, o, ell, lines[ell]))
  {
    added := [];
    if lines == [] {
      assert rows + added == rows;
    } else {
      var n := |lines| - 1;
      var r := AllocateLines(onHand, rows, o, lines, view);
      var first := AllocateLinesAdds(onHand, rows, o, lines[..n], view);
      var second := AllocateLineAdds(onHand, rows + first, o, n, lines[n], view);
      if r.Ok? {
        added := first + second;
        AddedTwice(rows, first, second, onHand);
        FreshJoined(first, second, onHand, o, n);
        forall ell | 0 <= ell < |lines| ensures LineSettled(added, o, ell, lines[ell]) {
          SettledAfter(first, second, o, lines, ell);
        }
      }
    }
  }

  lemma SettledAfter(first: seq<Allocation>, second: seq<Allocation>, o: Id, lines: seq<Line>, ell: nat)
    requires lines != [] && ell < |lines|
    requires forall i :: 0 <= i < |first| ==> first[i].line < |lines| - 1
    requires forall i :: 0 <= i < |second| ==> second[i].line == |lines| - 1
    requires ell < |lines| - 1 ==> LineSettled(first, o, ell, lines[ell])
    requires ell == |lines| - 1 ==> Covers(second, o, ell, lines[ell]) || (lines[ell].owner.JobOrder? && second == [])
    ensures LineSettled(first + second, o, ell, lines[ell])
  {
    if ell < |lines| - 1 {
      if Covers(first, o, ell, lines[ell]) {
        CoversConcat(first, second, o, ell, lines[ell]);
      }
    } else if Covers(second, o, ell, lines[ell]) {
      CoversConcat(first, second, o, ell, lines[ell]);
    }
  }

  predicate OwnActive(rows: seq<Allocation>, o: Id) {
    forall i :: 0 <= i < |rows| && rows[i].order == o ==> rows[i].status == Active
  }

  lemma ReadyLineAdds(onHand: map<Key, int>, rows: seq<Allocation>, o: Id, ell: nat, line: Line, view: StockView)
    returns (added: seq<Allocation>)
    requires WellRead(view) && OwnActive(rows, o) && LineSettled(rows, o, ell, line)
    ensures var r := ReadyLine(onHand, rows, o, ell, line, view);
      r.Ok? ==>
        && r.value == rows + added && Fresh(added, onHand, o, ell, ell + 1)
        && WithinOnHand(rows, added, onHand) && Covers(rows + added, o, ell, line)
  {
    added := [];
    var r := ReadyLine(onHand, rows, o, ell, line, view);
    if r.Ok? {
      if HasActive(rows, o, ell) {
        assert rows + added == rows;
      } else {
        assert NoRows(rows, o, ell);
        added := AllocateJobOutputAdds(onHand, rows, o, ell, line, view);
        CoversConcat(rows, added, o, ell, line);
      }
    }
  }

  /** markReady() adds rows for deferred lines only, and afterwards every line is covered. */
  lemma {:induction false} ReadyLinesAdds(onHand: map<Key, int>, rows: seq<Allocation>, o: Id, lines: seq<Line>,
      view: StockView)
    returns (added: seq<Allocation>)
    requires WellRead(view) && OwnActive(rows, o)
    requires forall ell :: 0 <= ell < |lines| ==> LineSettled(rows, o, ell, lines[ell])
    ensures var r := ReadyLines(onHand, rows, o, lines, view);
      r.Ok? ==>
        && r.value == rows + added && Fresh(added, onHand, o, 0, |lines|)
        && WithinOnHand(rows, added, onHand)
        && (forall ell :: 0 <= ell < |lines| ==> Covers(rows + added, o, ell, lines[ell]))
  {
    added := [];
    if lines == [] {
      assert rows + added == rows;
    } else {
      var n := |lines| - 1;
      var r := ReadyLines(onHand, rows, o, lines, view);
      var first := ReadyLinesAdds(onHand, rows, o, lines[..n], view);
      if r.Ok? {
        StillSettled(rows, first, o, n, lines[n]);
        var second := ReadyLineAdds(onHand, rows + first, o, n, lines[n], view);
        added := first + second;
        AddedTwice(rows, first, second, onHand);
        CoveredAfter(rows + first, second, o, lines, lines[..n]);
      }
    }
  }

  lemma CoveredAfter(rows: seq<Allocation>, added: seq<Allocation>, o: Id, lines: seq<Line>, earlier: seq<Line>)
    requires lines != [] && earlier == lines[..|lines| - 1]
    requires forall i :: 0 <= i < |added| ==> added[i].line == |lines| - 1
    requires forall ell :: 0 <= ell < |earlier| ==> Covers(rows, o, ell, earlier[ell])
    requires Covers(rows + added, o, |lines| - 1, lines[|lines| - 1])
    ensures forall ell :: 0 <= ell < |lines| ==> Covers(rows + added, o, ell, lines[ell])
  {
    forall ell | 0 <= ell < |lines| - 1 ensures Covers(rows + added, o, ell, lines[ell]) {
      assert earlier[ell] == lines[ell];
      CoversConcat(rows, added, o, ell, lines[ell]);
    }
  }

  lemma StillSettled(rows: seq<Allocation>, added: seq<Allocation>, o: Id, ell: nat, line: Line)
    requires LineSettled(rows, o, ell, line) && NoRows(added, o, ell)
    ensures LineSettled(rows + added, o, ell, line)
  {
    if Covers(rows, o, ell, line) {
      CoversConcat(rows, added, o, ell, line);
    }
  }

  // ---------------------------------------------------------------------------
  // Fulfilment history

  function HistoryRow(orders: seq<Order>, a: Allocation): Fulfilment {
    Fulfilment(a.order, a.line, a.quantity,
      if a.order < |orders| && a.line < |orders[a.order].lines|
      then PostingKey(orders[a.order].documentNo, GroupOf(orders[a.order].lines[a.line])) else "")
  }

  /** What the last row contributes to the history. */
  function LastConsumed(orders: seq<Order>, a: Allocation): multiset<Fulfilment> {
    if a.status == Consumed then multiset{HistoryRow(orders, a)} else multiset{}
  }

  /** One history row for every CONSUMED allocation. */
  function ConsumedRows(orders: seq<Order>, rows: seq<Allocation>): multiset<Fulfilment> {
    if rows == [] then multiset{} else
      var n := |rows| - 1;
      ConsumedRows(orders, rows[..n]) + LastConsumed(orders, rows[n])
  }

  lemma {:induction false} ConsumedRowsSame(orders: seq<Order>, rows: seq<Allocation>, orders': seq<Order>,
      rows': seq<Allocation>)
    requires |rows| <= |rows'|
    requires forall i :: 0 <= i < |rows| ==>
      (rows'[i].status == Consumed <==> rows[i].status == Consumed)
      && (rows[i].status == Consumed ==> HistoryRow(orders', rows'[i]) == HistoryRow(orders, rows[i]))
    requires forall i :: |rows| <= i < |rows'| ==> rows'[i].status != Consumed
    ensures ConsumedRows(orders', rows') == ConsumedRows(orders, rows)
    decreases |rows'|
  {
    if |rows'| > |rows| {
      ConsumedRowsSame(orders, rows, orders', rows'[..|rows'| - 1]);
    } else if rows != [] {
      var n := |rows| - 1;
      ConsumedRowsSame(orders, rows[..n], orders', rows'[..n]);
    }
  }

  lemma SumSwap(a: multiset<Fulfilment>, b: multiset<Fulfilment>, c: multiset<Fulfilment>)
    ensures a + b + c == a + c + b
  {
  }

  lemma {:induction false} ConsumedRowsFlip(orders: seq<Order>, rows: seq<Allocation>, i: nat)
    requires i < |rows| && rows[i].status == Active
    ensures ConsumedRows(orders, rows[i := rows[i].(status := Consumed)])
         == ConsumedRows(orders, rows) + multiset{HistoryRow(orders, rows[i])}
  {
    var n := |rows| - 1;
    if i < n {
      ConsumedRowsFlip(orders, rows[..n], i);
      FlippedBefore(orders, rows, i);
    } else {
      FlippedLast(orders, rows);
    }
  }

  lemma FlippedBefore(orders: seq<Order>, rows: seq<Allocation>, i: nat)
    requires i < |rows| - 1
    requires ConsumedRows(orders, rows[..|rows| - 1][i := rows[i].(status := Consumed)])
          == ConsumedRows(orders, rows[..|rows| - 1]) + multiset{HistoryRow(orders, rows[i])}
    ensures ConsumedRows(orders, rows[i := rows[i].(status := Consumed)])
         == ConsumedRows(orders, rows) + multiset{HistoryRow(orders, rows[i])}
  {
    var n := |rows| - 1;
    assert rows[i := rows[i].(status := Consumed)][..n] == rows[..n][i := rows[i].(status := Consumed)];
    SumSwap(ConsumedRows(orders, rows[..n]), multiset{HistoryRow(orders, rows[i])}, LastConsumed(orders, rows[n]));
  }

  lemma FlippedLast(orders: seq<Order>, rows: seq<Allocation>)
    requires rows != [] && rows[|rows| - 1].status == Active
    ensures var n := |rows| - 1;
      ConsumedRows(orders, rows[n := rows[n].(status := Consumed)])
        == ConsumedRows(orders, rows) + multiset{HistoryRow(orders, rows[n])}
  {
    var n := |rows| - 1;
    var flipped := rows[n := rows[n].(status := Consumed)];
    assert flipped[..n] == rows[..n];
    SameHistory(orders, rows[n], flipped[n]);
    assert ConsumedRows(orders, rows) == ConsumedRows(orders, rows[..n]) + multiset{};
  }

  lemma SameHistory(orders: seq<Order>, a: Allocation, b: Allocation)
    requires SameRow(a, b)
    ensures HistoryRow(orders, a) == HistoryRow(orders, b)
  {
  }

  ghost predicate HistoryMatches(orders: seq<Order>, l: Ledger) {
    multiset(l.fulfilments) == ConsumedRows(orders, l.allocations)
  }

  /** Every planned movement is found in the posting that its own line belongs to. */
  ghost predicate Resolves(db: Database, general: Option<string>, job: Option<string>, movements: seq<Movement>) {
    forall m :: m in movements ==>
      && m.allocation < |db.allocations|
      && m.quantity == db.allocations[m.allocation].quantity
      && ResolvePosting(db, general, job, m.allocation) ==
           Some(HistoryRow(db.orders, db.allocations[m.allocation]).posting)
  }

  /** `after` is `before` with exactly the ACTIVE rows that `movements` names flipped to CONSUMED. */
  ghost predicate Flipped(before: seq<Allocation>, after: seq<Allocation>, movements: seq<Movement>) {
    && |after| == |before|
    && forall i :: 0 <= i < |before| ==>
         after[i] == if before[i].status == Active && Carries(movements, i)
                     then before[i].(status := Consumed) else before[i]
  }

  lemma CarriesOneMore(movements: seq<Movement>, i: Id)
    requires movements != []
    ensures var n := |movements| - 1;
      Carries(movements, i) <==> Carries(movements[..n], i) || movements[n].allocation == i
  {
    var n := |movements| - 1;
    if Carries(movements[..n], i) {
      var j :| 0 <= j < n && movements[..n][j].allocation == i;
      assert movements[j].allocation == i;
    }
    if Carries(movements, i) {
      var j :| 0 <= j < |movements| && movements[j].allocation == i;
      if j < n { assert movements[..n][j].allocation == i; }
    }
  }

  lemma FlippedOneMore(rows: seq<Allocation>, before: Ledger, movements: seq<Movement>, posting: string)
    requires movements != [] && Flipped(rows, before.allocations, movements[..|movements| - 1])
    requires movements[|movements| - 1].allocation < |rows|
    ensures Flipped(rows, ConsumeOne(before, movements[|movements| - 1], posting).allocations, movements)
  {
    var m := movements[|movements| - 1];
    var after := ConsumeOne(before, m, posting);
    forall i | 0 <= i < |rows|
      ensures after.allocations[i] == if rows[i].status == Active && Carries(movements, i)
                                      then rows[i].(status := Consumed) else rows[i]
    {
      CarriesOneMore(movements, i);
    }
  }

  lemma ConsumeOneRecords(orders: seq<Order>, l: Ledger, m: Movement, posting: string)
    requires HistoryMatches(orders, l) && m.allocation < |l.allocations|
    requires m.quantity == l.allocations[m.allocation].quantity
    requires posting == HistoryRow(orders, l.allocations[m.allocation]).posting
    ensures HistoryMatches(orders, ConsumeOne(l, m, posting))
  {
    if l.allocations[m.allocation].status == Active {
      ConsumedRowsFlip(orders, l.allocations, m.allocation);
    }
  }

  lemma ConsumedOneMore(db: Database, before: Ledger, movements: seq<Movement>, posting: string)
    requires movements != [] && Flipped(db.allocations, before.allocations, movements[..|movements| - 1])
    requires HistoryMatches(db.orders, before)
    requires var m := movements[|movements| - 1];
      && m.allocation < |db.allocations| && m.quantity == db.allocations[m.allocation].quantity
      && posting == HistoryRow(db.orders, db.allocations[m.allocation]).posting
    ensures var after := ConsumeOne(before, movements[|movements| - 1], posting);
      HistoryMatches(db.orders, after) && Flipped(db.allocations, after.allocations, movements)
  {
    FlippedOneMore(db.allocations, before, movements, posting);
    ConsumeOneRecords(db.orders, before, movements[|movements| - 1], posting);
  }

  lemma ConsumeAllNext(db: Database, general: Option<string>, job: Option<string>, movements: seq<Movement>,
      posting: string)
    requires movements != []
    requires var n := |movements| - 1;
      && ConsumeAll(db, general, job, movements[..n]).Ok?
      && ResolvePosting(db, general, job, movements[n].allocation) == Some(posting)
    ensures var n := |movements| - 1;
      ConsumeAll(db, general, job, movements)
        == Ok(ConsumeOne(ConsumeAll(db, general, job, movements[..n]).value, movements[n], posting))
  {
  }

  /** The consume loop: it flips exactly the planned ACTIVE rows and records one history row for each. */
  lemma {:induction false} ConsumeAllExact(db: Database, general: Option<string>, job: Option<string>,
      movements: seq<Movement>)
    requires Resolves(db, general, job, movements)
    requires HistoryMatches(db.orders, Ledger(db.allocations, db.fulfilments))
    ensures var r := ConsumeAll(db, general, job, movements);
      r.Ok? && HistoryMatches(db.orders, r.value) && Flipped(db.allocations, r.value.allocations, movements)
  {
    if movements != [] {
      var n := |movements| - 1;
      ConsumeAllExact(db, general, job, movements[..n]);
      assert movements[n] in movements;
      var before := ConsumeAll(db, general, job, movements[..n]).value;
      var posting := HistoryRow(db.orders, db.allocations[movements[n].allocation]).posting;
      ConsumeAllNext(db, general, job, movements, posting);
      ConsumedOneMore(db, before, movements, posting);
    }
  }
}
