/**
 * Runs that take an order of one line, drawn from one balance row, from its draft to an open fulfil
 * call; the pieces that concrete runs are put together from.
 */
module OrderRuns {
  import opened Common
  import opened Fefo
  import opened Orders
  import opened OrderFacts
  import opened AllocationOutcome
  import opened FulfilmentProtocol
  import opened FulfilmentTheorems

  const COSTS := Details(0, 0)

  /** An order of one line as it is filed in each status, submitted by 7 and approved by 8. */
  function Filed(documentNo: string, line: Line, status: Status, version: nat): Order {
    Order(documentNo, status, version, [line],
          if status == Draft then None else Some(7), if status in {Draft, Submitted} then None else Some(8))
  }

  /** `s` with one more order, or one more allocation. */
  function WithOrder(s: System, order: Order): System { s.(db := s.db.(orders := s.db.orders + [order])) }

  function WithRow(s: System, row: Allocation): System { s.(db := s.db.(allocations := s.db.allocations + [row])) }

  function SourceOf(line: Line): Source {
    if line.owner.JobOrder? then JobWarehouse(line.owner.job, line.item) else Outlet(line.item)
  }

  function RowOf(o: Id, line: Line): Allocation { Allocation(o, 0, SHELF, line.baseQuantity, Active) }

  /** The line's only candidate is the shelf, and a job order it waits for is done. */
  predicate Served(line: Line, view: StockView) {
    && line.baseQuantity > 0 && !line.owner.ComponentSnapshot?
    && SourceOf(line) in view.candidates && view.candidates[SourceOf(line)] == [SHELF]
    && (line.owner.JobOrder? ==> line.owner.job in view.completedJobs && line.owner.job in view.outputLots)
  }

  // ---------------------------------------------------------------------------
  // One step at a time

  lemma Drafts(s: System, documentNo: string, line: Line)
    requires (forall o :: o in s.db.orders ==> o.documentNo != documentNo) && JobsFree(s.db.orders, [line]) &&
      ValidLine(line)
    ensures Next(s, NewDraft(documentNo, [line])) == WithOrder(s, Filed(documentNo, line, Draft, 1))
  {
    assert ValidLines([line]);
  }

  /** A guarded update of the last order. */
  lemma LastReplaced(s: System, before: Order, after: Order)
    requires after ==
      before.(status := after.status, version := before.version + 1, submittedBy := after.submittedBy,
        approvedBy := after.approvedBy)
    ensures Replace(WithOrder(s, before).db, |s.db.orders|, after.(version := before.version)) == WithOrder(s, after).db
  {
    assert (s.db.orders + [before])[|s.db.orders| := after] == s.db.orders + [after];
  }

  lemma Submits(s: System, documentNo: string, line: Line)
    ensures Next(WithOrder(s, Filed(documentNo, line, Draft, 1)), SubmitOrder(|s.db.orders|, 1, 7))
      == WithOrder(s, Filed(documentNo, line, Submitted, 2))
  {
    LastReplaced(s, Filed(documentNo, line, Draft, 1), Filed(documentNo, line, Submitted, 2));
  }

  lemma Approves(s: System, documentNo: string, line: Line)
    ensures Next(WithOrder(s, Filed(documentNo, line, Submitted, 2)), ApproveOrder(|s.db.orders|, 2, 8))
      == WithOrder(s, Filed(documentNo, line, Approved, 3))
  {
    LastReplaced(s, Filed(documentNo, line, Submitted, 2), Filed(documentNo, line, Approved, 3));
  }

  /** The shelf has enough, so the line gets one row of it. */
  lemma ShelfPick(onHand: map<Key, int>, rows: seq<Allocation>, o: Id, line: Line, view: StockView)
    requires Served(line, view) && NoRows(rows, o, 0) &&
      line.baseQuantity <= Lookup(onHand, SHELF) - Reserved(rows, SHELF)
    ensures AllocateLines(onHand, rows, o, [line], view) == Ok(rows + [RowOf(o, line)])
  {
    var available := Lookup(onHand, SHELF) - Reserved(rows, SHELF);
    assert Availability(onHand, rows, [SHELF]) == [available];
    ShelfPortions(available, line.baseQuantity);
    var portions := [Portion(SHELF, line.baseQuantity)];
    assert portions[..0] == [];
    assert InsertAll(rows, o, 0, portions) == Insert(rows, o, 0, portions[0]);
    assert AllocateItem(onHand, rows, o, 0, SourceOf(line), line.baseQuantity, view) == Ok(rows + [RowOf(o, line)]);
    assert [line][..0] == [];
  }

  /** An allocate call whose lines all find stock. */
  lemma AllocateWith(s: System, o: Id, v: nat, view: StockView, rows: seq<Allocation>)
    requires o < |s.db.orders| && s.db.orders[o].status == Approved && s.db.orders[o].version == v &&
      s.db.orders[o].lines != []
    requires AllocateLines(s.db.onHand, s.db.allocations, o, s.db.orders[o].lines, view) == Ok(rows)
    ensures Next(s, AllocateOrder(o, v, view)) ==
      s.(db := Replace(s.db, o, s.db.orders[o].(status := Allocated)).(allocations := rows))
  {
  }

  lemma Allocates(s: System, documentNo: string, line: Line, view: StockView)
    requires Served(line, view) && NoRows(s.db.allocations, |s.db.orders|, 0)
    requires line.baseQuantity <= Lookup(s.db.onHand, SHELF) - Reserved(s.db.allocations, SHELF)
    ensures Next(WithOrder(s, Filed(documentNo, line, Approved, 3)), AllocateOrder(|s.db.orders|, 3, view))
      == WithRow(WithOrder(s, Filed(documentNo, line, Allocated, 4)), RowOf(|s.db.orders|, line))
  {
    var o := |s.db.orders|;
    ShelfPick(s.db.onHand, s.db.allocations, o, line, view);
    AllocateWith(WithOrder(s, Filed(documentNo, line, Approved, 3)), o, 3, view, s.db.allocations + [RowOf(o, line)]);
    LastReplaced(s, Filed(documentNo, line, Approved, 3), Filed(documentNo, line, Allocated, 4));
  }

  /** A mark-ready call that finds every line allocated. */
  lemma ReadyWith(s: System, o: Id, v: nat, view: StockView, rows: seq<Allocation>)
    requires o < |s.db.orders| && s.db.orders[o].status == Allocated && s.db.orders[o].version == v
    requires ReadyLines(s.db.onHand, s.db.allocations, o, s.db.orders[o].lines, view) == Ok(rows)
    ensures Next(s, ReadyOrder(o, v, view)) ==
      s.(db := Replace(s.db, o, s.db.orders[o].(status := Ready)).(allocations := rows))
  {
  }

  lemma LineIsReady(onHand: map<Key, int>, rows: seq<Allocation>, o: Id, line: Line, view: StockView)
    ensures ReadyLines(onHand, rows + [RowOf(o, line)], o, [line], view) == Ok(rows + [RowOf(o, line)])
  {
    var all := rows + [RowOf(o, line)];
    assert all[|rows|] == RowOf(o, line);
    assert HasActive(all, o, 0);
    assert [line][..0] == [];
  }

  lemma Readies(s: System, documentNo: string, line: Line, view: StockView)
    ensures Next(WithRow(WithOrder(s, Filed(documentNo, line, Allocated, 4)), RowOf(|s.db.orders|, line)),
      ReadyOrder(|s.db.orders|, 4, view))
      == WithRow(WithOrder(s, Filed(documentNo, line, Ready, 5)), RowOf(|s.db.orders|, line))
  {
    var o := |s.db.orders|;
    LineIsReady(s.db.onHand, s.db.allocations, o, line, view);
    ReadyWith(WithRow(WithOrder(s, Filed(documentNo, line, Allocated, 4)), RowOf(o, line)), o, 4, view,
      s.db.allocations + [RowOf(o, line)]);
    LastReplaced(s, Filed(documentNo, line, Allocated, 4), Filed(documentNo, line, Ready, 5));
  }

  lemma {:induction false} NothingPlanned(orders: seq<Order>, rows: seq<Allocation>, o: Id, group: Group)
    requires o < |orders| && forall i :: 0 <= i < |rows| ==> rows[i].order != o
    ensures Plan(orders, rows, o, group) == []
  {
    if rows != [] { NothingPlanned(orders, rows[..|rows| - 1], o, group); }
  }

  lemma PlansRow(orders: seq<Order>, rows: seq<Allocation>, o: Id, line: Line, group: Group)
    requires o < |orders| && orders[o].lines == [line] && forall i :: 0 <= i < |rows| ==> rows[i].order != o
    ensures Plan(orders, rows + [RowOf(o, line)], o, group)
      == if GroupOf(line) == group then [Movement(|rows|, SHELF, line.baseQuantity)] else []
  {
    NothingPlanned(orders, rows, o, group);
    assert (rows + [RowOf(o, line)])[..|rows|] == rows;
  }

  /** `s` with an open call of its READY order `o`, and the document of its one group. */
  function Opened(s: System, o: Id, documentNo: string, group: Group, plan: seq<Movement>): System {
    s.(db := s.db.(documents := EnsureDocument(s.db.documents, group, PostingKey(documentNo, group), true)),
       calls := s.calls +
         [Call(o, 5, if group == General then plan else [],
               if group == JobOutput then plan else [], COSTS, BeforeGeneral)])
  }

  /** A prepare transaction of an order with one group to post. */
  lemma BeginWith(s: System, o: Id, group: Group, plan: seq<Movement>)
    requires o < |s.db.orders| && s.db.orders[o].status == Ready && s.db.orders[o].version == 5 && plan != []
    requires Plan(s.db.orders, s.db.allocations, o, General) == if group == General then plan else []
    requires Plan(s.db.orders, s.db.allocations, o, JobOutput) == if group == JobOutput then plan else []
    ensures BeginStep(s, o, 5, COSTS) == Opened(s, o, s.db.orders[o].documentNo, group, plan)
  {
  }

  lemma NextBegins(s: System, o: Id)
    ensures Next(s, BeginFulfil(o, 5, COSTS)) == BeginStep(s, o, 5, COSTS)
  {
  }

  lemma Begins(s: System, documentNo: string, line: Line)
    requires forall i :: 0 <= i < |s.db.allocations| ==> s.db.allocations[i].order < |s.db.orders|
    ensures var o := |s.db.orders|;
      var ready := WithRow(WithOrder(s, Filed(documentNo, line, Ready, 5)), RowOf(o, line));
      BeginStep(ready, o, 5, COSTS)
        == Opened(ready, o, documentNo, GroupOf(line), [Movement(|s.db.allocations|, SHELF, line.baseQuantity)])
  {
    var o := |s.db.orders|;
    var orders := s.db.orders + [Filed(documentNo, line, Ready, 5)];
    PlansRow(orders, s.db.allocations, o, line, General);
    PlansRow(orders, s.db.allocations, o, line, JobOutput);
    BeginWith(WithRow(WithOrder(s, Filed(documentNo, line, Ready, 5)), RowOf(o, line)), o, GroupOf(line),
              [Movement(|s.db.allocations|, SHELF, line.baseQuantity)]);
  }

  // ---------------------------------------------------------------------------
  // Whole runs

  function Approval(documentNo: string, line: Line, o: Id): seq<Step> {
    [NewDraft(documentNo, [line])] + [SubmitOrder(o, 1, 7)] + [ApproveOrder(o, 2, 8)]
  }

  /** Draft, submit and approve one more order. */
  lemma ApprovedOrder(s: System, steps: seq<Step>, documentNo: string, line: Line)
    requires forall o :: o in Run(s, steps).db.orders ==> o.documentNo != documentNo
    requires JobsFree(Run(s, steps).db.orders, [line]) && ValidLine(line)
    ensures Run(s, steps + Approval(documentNo, line, |Run(s, steps).db.orders|))
      == WithOrder(Run(s, steps), Filed(documentNo, line, Approved, 3))
  {
    var before := Run(s, steps);
    var o := |before.db.orders|;
    Drafts(before, documentNo, line);
    Submits(before, documentNo, line);
    Approves(before, documentNo, line);
    RunLast(s, steps, NewDraft(documentNo, [line]));
    RunLast(s, steps + [NewDraft(documentNo, [line])], SubmitOrder(o, 1, 7));
    RunLast(s, steps + [NewDraft(documentNo, [line])] + [SubmitOrder(o, 1, 7)], ApproveOrder(o, 2, 8));
    assert steps + [NewDraft(documentNo, [line])] + [SubmitOrder(o, 1, 7)] + [ApproveOrder(o, 2, 8)] ==
      steps + Approval(documentNo, line, o);
  }

  function Preparation(o: Id, view: StockView): seq<Step> {
    [AllocateOrder(o, 3, view)] + [ReadyOrder(o, 4, view)] + [BeginFulfil(o, 5, COSTS)]
  }

  /** The order ends READY with its row ACTIVE, its document in place and one call about to post. */
  function ReadyToPost(s: System, documentNo: string, line: Line): System {
    var o := |s.db.orders|;
    Opened(WithRow(WithOrder(s, Filed(documentNo, line, Ready, 5)), RowOf(o, line)), o, documentNo, GroupOf(line),
           [Movement(|s.db.allocations|, SHELF, line.baseQuantity)])
  }

  lemma PreparedOrder(s: System, steps: seq<Step>, before: System, documentNo: string, line: Line, view: StockView)
    requires Run(s, steps) == WithOrder(before, Filed(documentNo, line, Approved, 3)) && Served(line, view)
    requires forall i :: 0 <= i < |before.db.allocations| ==> before.db.allocations[i].order < |before.db.orders|
    requires line.baseQuantity <= Lookup(before.db.onHand, SHELF) - Reserved(before.db.allocations, SHELF)
    ensures Run(s, steps + Preparation(|before.db.orders|, view)) == ReadyToPost(before, documentNo, line)
  {
    var o := |before.db.orders|;
    Allocates(before, documentNo, line, view);
    Readies(before, documentNo, line, view);
    Begins(before, documentNo, line);
    NextBegins(WithRow(WithOrder(before, Filed(documentNo, line, Ready, 5)), RowOf(o, line)), o);
    RunLast(s, steps, AllocateOrder(o, 3, view));
    RunLast(s, steps + [AllocateOrder(o, 3, view)], ReadyOrder(o, 4, view));
    RunLast(s, steps + [AllocateOrder(o, 3, view)] + [ReadyOrder(o, 4, view)], BeginFulfil(o, 5, COSTS));
    assert steps + [AllocateOrder(o, 3, view)] + [ReadyOrder(o, 4, view)] + [BeginFulfil(o, 5, COSTS)] ==
      steps + Preparation(o, view);
  }
}
