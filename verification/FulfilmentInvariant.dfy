/** Every step of the fulfilment engine keeps the invariant, so every run does. */
module FulfilmentInvariant {
  import opened Common
  import opened Fefo
  import opened Orders
  import opened OrderFacts
  import opened FulfilmentProtocol

  lemma KeepsRest(s: System, db': Database)
    requires Inv(s) && Evolves(s.db, db')
    requires OrdersOk(db') && RowsOk(db') && CoverageOk(db') && HistoryOk(db') && FulfilledPosted(db')
    ensures Inv(s.(db := db'))
  {
    EvolvesPostings(s.db, db');
    EvolvesCalls(s.db, db', s.calls);
    EvolvesConserved(s, db');
  }

  /** Transactions that consume nothing leave the fulfilment history in step. */
  lemma HistoryKept(db: Database, db': Database)
    requires RowsOk(db) && HistoryOk(db) && Evolves(db, db') && db'.fulfilments == db.fulfilments
    requires forall i :: 0 <= i < |db'.allocations| ==>
      (db'.allocations[i].status == Consumed <==> i < |db.allocations| && db.allocations[i].status == Consumed)
    ensures HistoryOk(db')
  {
    forall i | 0 <= i < |db.allocations|
      ensures HistoryRow(db'.orders, db'.allocations[i]) == HistoryRow(db.orders, db.allocations[i])
    {
      assert SameRow(db.allocations[i], db'.allocations[i]) && RowOk(db, db.allocations[i]);
      assert OrderEvolves(db.orders[db.allocations[i].order], db'.orders[db.allocations[i].order]);
    }
    ConsumedRowsSame(db.orders, db.allocations, db'.orders, db'.allocations);
  }

  lemma FulfilledPostedKept(db: Database, db': Database)
    requires PostingsOk(db) && FulfilledPosted(db) && Evolves(db, db')
    requires forall o :: 0 <= o < |db'.orders| && db'.orders[o].status == Fulfilled ==>
      o < |db.orders| && db.orders[o].status == Fulfilled
    ensures FulfilledPosted(db')
  {
    EvolvesPostings(db, db');
    forall o, g | 0 <= o < |db'.orders| && db'.orders[o].status == Fulfilled
      ensures FullPlan(db'.orders, db'.allocations, o, g) == [] || GroupPosted(db', o, g)
    {
      assert OrderEvolves(db.orders[o], db'.orders[o]);
      FullPlanStable(db.orders, db.allocations, db'.orders, db'.allocations, o, g);
    }
  }

  lemma NothingConsumed(db: Database, db': Database)
    requires RowsOk(db) && RowsOk(db') && Evolves(db, db')
    requires forall o :: 0 <= o < |db'.orders| && db'.orders[o].status == Fulfilled ==>
      o < |db.orders| && db.orders[o].status == Fulfilled
    ensures forall i :: 0 <= i < |db'.allocations| ==>
      (db'.allocations[i].status == Consumed <==> i < |db.allocations| && db.allocations[i].status == Consumed)
  {
    forall i | 0 <= i < |db'.allocations|
      ensures db'.allocations[i].status == Consumed <==> i < |db.allocations| && db.allocations[i].status == Consumed
    {
      assert RowOk(db', db'.allocations[i]);
      if i < |db.allocations| {
        assert RowOk(db, db.allocations[i]) && SameRow(db.allocations[i], db'.allocations[i]);
        assert OrderEvolves(db.orders[db.allocations[i].order], db'.orders[db.allocations[i].order]);
      }
    }
  }

  /** Any order transaction that fulfils nothing. */
  lemma QuietStep(s: System, db': Database)
    requires Inv(s) && Evolves(s.db, db') && db'.fulfilments == s.db.fulfilments
    requires OrdersOk(db') && RowsOk(db') && CoverageOk(db')
    requires forall o :: 0 <= o < |db'.orders| && db'.orders[o].status == Fulfilled ==>
      o < |s.db.orders| && s.db.orders[o].status == Fulfilled
    ensures Inv(s.(db := db'))
  {
    NothingConsumed(s.db, db');
    HistoryKept(s.db, db');
    FulfilledPostedKept(s.db, db');
    KeepsRest(s, db');
  }

  // ---------------------------------------------------------------------------
  // Steps that touch the order table alone

  predicate EarlyMove(a: Order, b: Order) {
    || b == a
    || (a.status in {Draft, Submitted, Approved} && b.status in {Draft, Submitted, Approved})
    || (a.status == Allocated && b.status == InProduction && b.lines == a.lines)
  }

  lemma OrderTableStep(s: System, orders': seq<Order>)
    requires Inv(s) && |s.db.orders| <= |orders'|
    requires OrdersOk(s.db.(orders := orders'))
    requires forall o :: 0 <= o < |s.db.orders| ==>
      OrderEvolves(s.db.orders[o], orders'[o]) && EarlyMove(s.db.orders[o], orders'[o])
    requires forall o :: |s.db.orders| <= o < |orders'| ==> orders'[o].status == Draft
    ensures Inv(s.(db := s.db.(orders := orders')))
  {
    OrderTableRows(s.db, orders');
    OrderTableEvolves(s.db, orders');
    QuietStep(s, s.db.(orders := orders'));
  }

  lemma OrderTableEvolves(db: Database, orders': seq<Order>)
    requires |db.orders| <= |orders'| && forall o :: 0 <= o < |db.orders| ==> OrderEvolves(db.orders[o], orders'[o])
    ensures Evolves(db, db.(orders := orders'))
  {
  }

  lemma OrderTableRows(db: Database, orders': seq<Order>)
    requires RowsOk(db) && CoverageOk(db) && |db.orders| <= |orders'|
    requires forall o :: 0 <= o < |db.orders| ==>
      OrderEvolves(db.orders[o], orders'[o]) && EarlyMove(db.orders[o], orders'[o])
    requires forall o :: |db.orders| <= o < |orders'| ==> orders'[o].status == Draft
    ensures RowsOk(db.(orders := orders')) && CoverageOk(db.(orders := orders'))
  {
    var db' := db.(orders := orders');
    forall i | 0 <= i < |db'.allocations| ensures RowOk(db', db'.allocations[i]) {
      assert RowOk(db, db.allocations[i]);
      var o := db.allocations[i].order;
      assert OrderEvolves(db.orders[o], orders'[o]) && EarlyMove(db.orders[o], orders'[o]);
    }
    forall o, ell | 0 <= o < |orders'| && 0 <= ell < |orders'[o].lines| ensures LineOk(db', o, ell) {
      if o < |db.orders| && orders'[o].status !in {Draft, Submitted, Approved} {
        assert OrderEvolves(db.orders[o], orders'[o]) && EarlyMove(db.orders[o], orders'[o]);
        assert LineOk(db, o, ell);
      }
    }
  }

  /** One order replaced, its version advanced by one. */
  lemma ReplacedOrdersOk(db: Database, o: Id, order: Order)
    requires OrdersOk(db) && o < |db.orders|
    requires order.documentNo == db.orders[o].documentNo && order.version == db.orders[o].version
    requires ValidLines(order.lines) && ApprovalOk(order)
    ensures OrdersOk(Replace(db, o, order))
  {
  }

  lemma CreatedOrdersOk(db: Database, documentNo: string, lines: seq<Line>)
    requires OrdersOk(db) && CreateDraft(db, documentNo, lines).Ok?
    ensures var db' := CreateDraft(db, documentNo, lines).value;
      && OrdersOk(db')
      && (forall o :: 0 <= o < |db.orders| ==>
           OrderEvolves(db.orders[o], db'.orders[o]) && EarlyMove(db.orders[o], db'.orders[o]))
  {
    assert forall o :: 0 <= o < |db.orders| ==> db.orders[o] in db.orders;
  }

  lemma CreateKeeps(s: System, documentNo: string, lines: seq<Line>)
    requires Inv(s)
    ensures Inv(Next(s, NewDraft(documentNo, lines)))
  {
    var r := CreateDraft(s.db, documentNo, lines);
    if r.Ok? {
      CreatedOrdersOk(s.db, documentNo, lines);
      OrderTableStep(s, r.value.orders);
    }
  }

  lemma EarlyReplace(s: System, o: Id, order: Order)
    requires Inv(s) && o < |s.db.orders|
    requires order.documentNo == s.db.orders[o].documentNo && order.version == s.db.orders[o].version
    requires ValidLines(order.lines) && ApprovalOk(order)
    requires s.db.orders[o].status != Draft ==> order.lines == s.db.orders[o].lines
    requires (s.db.orders[o].status in {Draft, Submitted, Approved} && order.status in {Draft, Submitted, Approved})
      || (s.db.orders[o].status == Allocated && order.status == InProduction)
    ensures Inv(s.(db := Replace(s.db, o, order)))
  {
    ReplacedOrdersOk(s.db, o, order);
    ReplacedEarly(s.db.orders, o, order.(version := order.version + 1));
    assert Replace(s.db, o, order) == s.db.(orders := s.db.orders[o := order.(version := order.version + 1)]);
    OrderTableStep(s, s.db.orders[o := order.(version := order.version + 1)]);
  }

  lemma ReplacedEarly(orders: seq<Order>, o: Id, order: Order)
    requires o < |orders| && OrderEvolves(orders[o], order) && EarlyMove(orders[o], order)
    ensures forall p :: 0 <= p < |orders| ==>
      OrderEvolves(orders[p], orders[o := order][p]) && EarlyMove(orders[p], orders[o := order][p])
  {
  }

  lemma EarlyStepsKeep(s: System, step: Step)
    requires Inv(s)
    requires step.EditDraft? || step.SubmitOrder? || step.ApproveOrder? || step.StartProduction?
    ensures Inv(Next(s, step))
  {
    var o := step.order;
    if o < |s.db.orders| {
      var order := s.db.orders[o];
      match step
      case EditDraft(_, v, lines) =>
        if UpdateDraft(s.db, o, v, lines).Ok? {
          EarlyReplace(s, o, if lines.Some? then order.(lines := lines.value) else order);
        }
      case SubmitOrder(_, v, actor) =>
        if Submit(s.db, o, v, actor).Ok? {
          EarlyReplace(s, o, order.(status := Submitted, submittedBy := Some(actor)));
        }
      case ApproveOrder(_, v, actor) =>
        if Approve(s.db, o, v, actor).Ok? {
          EarlyReplace(s, o, order.(status := Approved, approvedBy := Some(actor)));
        }
      case StartProduction(_, v) =>
        if MarkInProduction(s.db, o, v).Ok? && order.status != InProduction {
          EarlyReplace(s, o, order.(status := InProduction));
        }
    }
  }

  // ---------------------------------------------------------------------------
  // Allocation

  /** New rows for order `o`, whose status moves to Allocated or Ready. */
  lemma RowsAddedStep(s: System, o: Id, added: seq<Allocation>, status: Status)
    requires Inv(s) && o < |s.db.orders|
    requires s.db.orders[o].status in {Approved, Allocated, InProduction}
    requires status == Allocated || status == Ready
    requires Fresh(added, s.db.onHand, o, 0, |s.db.orders[o].lines|)
    requires forall ell :: 0 <= ell < |s.db.orders[o].lines| ==>
      && (status == Allocated ==> LineSettled(s.db.allocations + added, o, ell, s.db.orders[o].lines[ell]))
      && (status == Ready ==> Covers(s.db.allocations + added, o, ell, s.db.orders[o].lines[ell]))
    ensures Inv(s.(db := Replace(s.db, o, s.db.orders[o].(status := status)).(allocations := s.db.allocations + added)))
  {
    var db' := Replace(s.db, o, s.db.orders[o].(status := status)).(allocations := s.db.allocations + added);
    ReplacedOrdersOk(s.db, o, s.db.orders[o].(status := status));
    AddedRowsEvolve(s.db, o, added, status);
    AddedRowsCoverage(s.db, o, added, status);
    QuietStep(s, db');
  }

  lemma AddedRowsEvolve(db: Database, o: Id, added: seq<Allocation>, status: Status)
    requires RowsOk(db) && o < |db.orders|
    requires db.orders[o].status in {Approved, Allocated, InProduction}
    requires status == Allocated || status == Ready
    requires Fresh(added, db.onHand, o, 0, |db.orders[o].lines|)
    ensures var db' := Replace(db, o, db.orders[o].(status := status)).(allocations := db.allocations + added);
      Evolves(db, db') && RowsOk(db')
  {
    var db' := Replace(db, o, db.orders[o].(status := status)).(allocations := db.allocations + added);
    forall i | 0 <= i < |db'.allocations| ensures RowOk(db', db'.allocations[i]) {
      if i < |db.allocations| { assert RowOk(db, db.allocations[i]); }
    }
  }

  lemma AddedRowsCoverage(db: Database, o: Id, added: seq<Allocation>, status: Status)
    requires CoverageOk(db) && o < |db.orders|
    requires Fresh(added, db.onHand, o, 0, |db.orders[o].lines|)
    requires status == Allocated || status == Ready
    requires forall ell :: 0 <= ell < |db.orders[o].lines| ==>
      && (status == Allocated ==> LineSettled(db.allocations + added, o, ell, db.orders[o].lines[ell]))
      && (status == Ready ==> Covers(db.allocations + added, o, ell, db.orders[o].lines[ell]))
    ensures CoverageOk(Replace(db, o, db.orders[o].(status := status)).(allocations := db.allocations + added))
  {
    var db' := Replace(db, o, db.orders[o].(status := status)).(allocations := db.allocations + added);
    forall p, ell | 0 <= p < |db'.orders| && 0 <= ell < |db'.orders[p].lines| ensures LineOk(db', p, ell) {
      if p != o {
        assert LineOk(db, p, ell);
        StillSettledElsewhere(db.allocations, added, p, ell, db.orders[p].lines[ell]);
      }
    }
  }

  lemma StillSettledElsewhere(rows: seq<Allocation>, added: seq<Allocation>, o: Id, ell: nat, line: Line)
    requires NoRows(added, o, ell)
    ensures Covers(rows, o, ell, line) ==> Covers(rows + added, o, ell, line)
    ensures LineSettled(rows, o, ell, line) ==> LineSettled(rows + added, o, ell, line)
  {
    if Covers(rows, o, ell, line) {
      CoversConcat(rows, added, o, ell, line);
    }
  }

  /** What a committed allocate() or markReady() changes: fresh rows within on-hand, and the status. */
  ghost predicate AddsRows(db: Database, db': Database, o: Id, added: seq<Allocation>, status: Status)
    requires o < |db.orders|
  {
    && db' == Replace(db, o, db.orders[o].(status := status)).(allocations := db.allocations + added)
    && Fresh(added, db.onHand, o, 0, |db.orders[o].lines|)
    && WithinOnHand(db.allocations, added, db.onHand)
  }

  lemma NextIsAllocate(s: System, o: Id, v: nat, view: StockView)
    ensures Next(s, AllocateOrder(o, v, view)) == Commit(s, Allocate(s.db, o, v, view))
  {
  }

  lemma NextIsReady(s: System, o: Id, v: nat, view: StockView)
    ensures Next(s, ReadyOrder(o, v, view)) == Commit(s, MarkReady(s.db, o, v, view))
  {
  }

  lemma SameInv(s: System, t: System)
    requires Inv(t) && s == t
    ensures Inv(s)
  {
  }

  lemma AllocatedRows(db: Database, o: Id, v: nat, view: StockView) returns (added: seq<Allocation>)
    requires RowsOk(db) && WellRead(view) && Allocate(db, o, v, view).Ok? && db.orders[o].status != Allocated
    ensures db.orders[o].status == Approved
    ensures AddsRows(db, Allocate(db, o, v, view).value, o, added, Allocated)
    ensures forall ell :: 0 <= ell < |db.orders[o].lines| ==>
      LineSettled(db.allocations + added, o, ell, db.orders[o].lines[ell])
  {
    var lines := db.orders[o].lines;
    added := AllocateLinesAdds(db.onHand, db.allocations, o, lines, view);
    forall i | 0 <= i < |db.allocations| ensures db.allocations[i].order != o { assert RowOk(db, db.allocations[i]); }
    forall ell | 0 <= ell < |lines| ensures LineSettled(db.allocations + added, o, ell, lines[ell]) {
      FirstSettled(db.allocations, added, o, ell, lines[ell]);
    }
  }

  lemma FirstSettled(rows: seq<Allocation>, added: seq<Allocation>, o: Id, ell: nat, line: Line)
    requires NoRows(rows, o, ell) && LineSettled(added, o, ell, line)
    ensures LineSettled(rows + added, o, ell, line)
  {
    if Covers(added, o, ell, line) {
      CoversConcat(rows, added, o, ell, line);
    }
  }

  lemma AllocateKeeps(s: System, o: Id, v: nat, view: StockView) returns (added: seq<Allocation>)
    requires Inv(s) && WellRead(view)
    ensures Inv(Next(s, AllocateOrder(o, v, view)))
    ensures Allocate(s.db, o, v, view).Ok? && s.db.orders[o].status != Allocated ==>
      s.db.orders[o].status == Approved && AddsRows(s.db, Allocate(s.db, o, v, view).value, o, added, Allocated)
  {
    added := [];
    if Allocate(s.db, o, v, view).Ok? && s.db.orders[o].status != Allocated {
      added := AllocatedRows(s.db, o, v, view);
      RowsAddedStep(s, o, added, Allocated);
      NextIsAllocate(s, o, v, view);
      SameInv(Next(s, AllocateOrder(o, v, view)), s.(db := Allocate(s.db, o, v, view).value));
    }
  }

  lemma ReadiedRows(db: Database, o: Id, v: nat, view: StockView) returns (added: seq<Allocation>)
    requires RowsOk(db) && CoverageOk(db) && WellRead(view) && MarkReady(db, o, v, view).Ok? &&
      db.orders[o].status != Ready
    ensures db.orders[o].status in {Allocated, InProduction}
    ensures AddsRows(db, MarkReady(db, o, v, view).value, o, added, Ready)
    ensures forall ell :: 0 <= ell < |db.orders[o].lines| ==>
      Covers(db.allocations + added, o, ell, db.orders[o].lines[ell])
  {
    var lines := db.orders[o].lines;
    assert OwnActive(db.allocations, o) by {
      assert forall i :: 0 <= i < |db.allocations| ==> RowOk(db, db.allocations[i]);
    }
    forall ell | 0 <= ell < |lines| ensures LineSettled(db.allocations, o, ell, lines[ell]) {
      assert LineOk(db, o, ell);
    }
    added := ReadyLinesAdds(db.onHand, db.allocations, o, lines, view);
  }

  lemma MarkReadyKeeps(s: System, o: Id, v: nat, view: StockView) returns (added: seq<Allocation>)
    requires Inv(s) && WellRead(view)
    ensures Inv(Next(s, ReadyOrder(o, v, view)))
    ensures MarkReady(s.db, o, v, view).Ok? && s.db.orders[o].status != Ready ==>
      s.db.orders[o].status in {Allocated, InProduction} &&
        AddsRows(s.db, MarkReady(s.db, o, v, view).value, o, added, Ready)
  {
    added := [];
    if MarkReady(s.db, o, v, view).Ok? && s.db.orders[o].status != Ready {
      added := ReadiedRows(s.db, o, v, view);
      RowsAddedStep(s, o, added, Ready);
      NextIsReady(s, o, v, view);
      SameInv(Next(s, ReadyOrder(o, v, view)), s.(db := MarkReady(s.db, o, v, view).value));
    }
  }

  // ---------------------------------------------------------------------------
  // Status changes of existing rows

  /** Order `o` moves to a final status and each of its rows follows. */
  lemma RowsFollow(db: Database, db': Database, o: Id, status: Status)
    requires OrdersOk(db) && RowsOk(db) && CoverageOk(db)
    requires o < |db.orders| && status in {Fulfilled, Cancelled}
    requires db'.orders == Replace(db, o, db.orders[o].(status := status)).orders
    requires db'.onHand == db.onHand && |db'.allocations| == |db.allocations|
    requires forall i :: 0 <= i < |db.allocations| ==>
      db'.allocations[i] == if db.allocations[i].order == o
                            then db.allocations[i].(status := RowStatus(status).value) else db.allocations[i]
    requires status == Fulfilled ==> db.orders[o].status == Ready
    ensures RowsOk(db') && CoverageOk(db')
  {
    forall i | 0 <= i < |db'.allocations| ensures RowOk(db', db'.allocations[i]) {
      assert RowOk(db, db.allocations[i]);
    }
    forall p, ell | 0 <= p < |db'.orders| && 0 <= ell < |db'.orders[p].lines| ensures LineOk(db', p, ell) {
      assert LineOk(db, p, ell);
      CoversSame(db.allocations, db'.allocations, p, ell, db.orders[p].lines[ell]);
    }
  }

  /** Every row of an order that may be cancelled is ACTIVE, so all of them are released. */
  lemma CancelledRows(db: Database, o: Id)
    requires RowsOk(db) && o < |db.orders| && db.orders[o].status !in {Fulfilled, Cancelled}
    ensures forall i :: 0 <= i < |db.allocations| ==>
      ReleaseAll(db.allocations, o)[i] == if db.allocations[i].order == o
        then db.allocations[i].(status := Released) else db.allocations[i]
    ensures forall i :: 0 <= i < |db.allocations| && db.allocations[i].order == o ==> db.allocations[i].status == Active
  {
    forall i | 0 <= i < |db.allocations| ensures db.allocations[i].order == o ==> db.allocations[i].status == Active {
      assert RowOk(db, db.allocations[i]);
    }
  }

  /** A status change of one order, with its rows re-flagged, is an evolution of the tables. */
  lemma FollowEvolves(db: Database, db': Database, o: Id, status: Status)
    requires o < |db.orders| && db.orders[o].status !in {Fulfilled, Cancelled} && status in {Fulfilled, Cancelled}
    requires db'.orders == Replace(db, o, db.orders[o].(status := status)).orders
    requires |db'.allocations| == |db.allocations|
    requires forall i :: 0 <= i < |db.allocations| ==> SameRow(db.allocations[i], db'.allocations[i])
    requires db'.postings == db.postings && db'.onHand == db.onHand && db'.documents == db.documents
    ensures Evolves(db, db')
  {
  }

  lemma CancelEvolves(db: Database, o: Id, db': Database)
    requires OrdersOk(db) && RowsOk(db) && CoverageOk(db)
    requires o < |db.orders| && db.orders[o].status !in {Fulfilled, Cancelled}
    requires db' == Replace(db, o, db.orders[o].(status := Cancelled)).(allocations := ReleaseAll(db.allocations, o))
    ensures Evolves(db, db') && OrdersOk(db') && RowsOk(db') && CoverageOk(db')
    ensures forall p :: 0 <= p < |db'.orders| && db'.orders[p].status == Fulfilled ==>
      p < |db.orders| && db.orders[p].status == Fulfilled
  {
    CancelledRows(db, o);
    ReplacedOrdersOk(db, o, db.orders[o].(status := Cancelled));
    FollowEvolves(db, db', o, Cancelled);
    RowsFollow(db, db', o, Cancelled);
  }

  lemma CancelledStep(s: System, o: Id, db': Database)
    requires Inv(s) && o < |s.db.orders| && s.db.orders[o].status !in {Fulfilled, Cancelled}
    requires db' == Replace(s.db, o,
      s.db.orders[o].(status := Cancelled)).(allocations := ReleaseAll(s.db.allocations, o))
    ensures Inv(s.(db := db'))
  {
    CancelEvolves(s.db, o, db');
    QuietStep(s, db');
  }

  lemma CancelKeeps(s: System, o: Id, v: nat, reasonGiven: bool)
    requires Inv(s)
    ensures Inv(Next(s, CancelOrder(o, v, reasonGiven)))
  {
    var r := Cancel(s.db, o, v, reasonGiven);
    if r.Ok? {
      CancelledStep(s, o, r.value);
    }
  }

  // ---------------------------------------------------------------------------
  // Finalize

  /** Under the invariant, every movement of a call that posted both groups resolves to its own posting. */
  lemma PlanResolves(db: Database, call: Call, g: Option<string>, j: Option<string>)
    requires RowsOk(db) && PostingsOk(db) && CallOk(db, call) && call.stage == BeforeFinalize
    requires g == if call.general != [] then Some(PostingKey(db.orders[call.order].documentNo, General)) else None
    requires j == if call.job != [] then Some(PostingKey(db.orders[call.order].documentNo, JobOutput)) else None
    ensures Resolves(db, g, j, call.general + call.job)
  {
    var o := call.order;
    if g.Some? { assert PostingOk(db, g.value); }
    if j.Some? { assert PostingOk(db, j.value); }
    forall m | m in call.general + call.job
      ensures m.allocation < |db.allocations| && m.quantity == db.allocations[m.allocation].quantity
      ensures ResolvePosting(db, g, j, m.allocation) ==
        Some(HistoryRow(db.orders, db.allocations[m.allocation]).posting)
    {
      PlanMember(db.orders, db.allocations, o, if m in call.job then JobOutput else General, m);
      PlanCarries(db.orders, db.allocations, o, General, m.allocation);
      PlanCarries(db.orders, db.allocations, o, JobOutput, m.allocation);
    }
  }

  lemma PlanCarriesAll(db: Database, call: Call, i: nat)
    requires RowsOk(db) && CallOk(db, call) && i < |db.allocations|
    ensures Carries(call.general + call.job, i) <==> db.allocations[i].order == call.order
  {
    PlanCarries(db.orders, db.allocations, call.order, General, i);
    PlanCarries(db.orders, db.allocations, call.order, JobOutput, i);
    CarriesEither(call.general, call.job, i);
    assert RowOk(db, db.allocations[i]);
  }

  /** Order `o` FULFILLED, exactly its rows CONSUMED, and the history extended to match. */
  ghost predicate Consumes(db: Database, o: Id, db': Database)
    requires o < |db.orders|
  {
    && db' == Replace(db, o, db.orders[o].(status := Fulfilled)).(allocations := db'.allocations,
         fulfilments := db'.fulfilments)
    && |db'.allocations| == |db.allocations|
    && (forall i :: 0 <= i < |db.allocations| ==>
         db'.allocations[i] == if db.allocations[i].order == o then db.allocations[i].(status := Consumed)
           else db.allocations[i])
    && HistoryMatches(db.orders, Ledger(db'.allocations, db'.fulfilments))
  }

  /**
   * Finalize either moves the order from READY to FULFILLED, consuming exactly its rows, or
   * changes nothing at all.
   */
  lemma FinalizeExact(db: Database, call: Call)
    requires OrdersOk(db) && RowsOk(db) && HistoryOk(db) && PostingsOk(db)
    requires CallOk(db, call) && call.stage == BeforeFinalize
    ensures var r := Finalize(db, call.order, call.version, call.general, call.job);
      var order := db.orders[call.order];
      && (r.Ok? <==> order.status in {Ready, Fulfilled})
      && (order.status == Fulfilled ==> r.value == db)
      && (order.status == Ready ==> Consumes(db, call.order, r.value))
  {
    var order := db.orders[call.order];
    var g := if call.general != [] then Some(PostingKey(order.documentNo, General)) else None;
    var j := if call.job != [] then Some(PostingKey(order.documentNo, JobOutput)) else None;
    PlanResolves(db, call, g, j);
    ConsumeAllExact(db, g, j, call.general + call.job);
    var ledger := ConsumeAll(db, g, j, call.general + call.job).value;
    ConsumedOwn(db, call, ledger.allocations);
    if order.status == Fulfilled {
      ConsumeNothing(db, g, j, call.general + call.job);
    }
  }

  lemma ConsumedOwn(db: Database, call: Call, after: seq<Allocation>)
    requires RowsOk(db) && CallOk(db, call)
    requires Flipped(db.allocations, after, call.general + call.job)
    ensures db.orders[call.order].status == Ready ==> forall i :: 0 <= i < |db.allocations| ==>
      after[i] == if db.allocations[i].order == call.order then db.allocations[i].(status := Consumed)
        else db.allocations[i]
    ensures db.orders[call.order].status == Fulfilled ==> forall m :: m in call.general + call.job ==>
      m.allocation < |db.allocations| ==> db.allocations[m.allocation].status != Active
  {
    forall i | 0 <= i < |db.allocations|
      ensures db.orders[call.order].status == Ready ==>
        after[i] == if db.allocations[i].order == call.order then db.allocations[i].(status := Consumed)
          else db.allocations[i]
    {
      PlanCarriesAll(db, call, i);
      assert RowOk(db, db.allocations[i]);
    }
    forall m | m in call.general + call.job && m.allocation < |db.allocations|
      ensures db.orders[call.order].status == Fulfilled ==> db.allocations[m.allocation].status != Active
    {
      PlanMember(db.orders, db.allocations, call.order, if m in call.job then JobOutput else General, m);
      assert RowOk(db, db.allocations[m.allocation]);
    }
  }

  /** Consuming rows none of which is ACTIVE any more writes nothing. */
  lemma {:induction false} ConsumeNothing(db: Database, g: Option<string>, j: Option<string>, movements: seq<Movement>)
    requires ConsumeAll(db, g, j, movements).Ok?
    requires forall m :: m in movements ==> m.allocation < |db.allocations| ==>
      db.allocations[m.allocation].status != Active
    ensures ConsumeAll(db, g, j, movements).value == Ledger(db.allocations, db.fulfilments)
  {
    if movements != [] {
      assert movements[|movements| - 1] in movements;
      ConsumeNothing(db, g, j, movements[..|movements| - 1]);
    }
  }

  /** Closing a call never weakens anything the invariant says. */
  lemma ClosingKeeps(s: System, c: nat)
    requires Inv(s) && c < |s.calls|
    ensures Inv(AtStage(s, c, Closed))
  {
    assert CallOk(s.db, s.calls[c]);
  }

  lemma FinalizedDatabase(db: Database, o: Id, db': Database)
    requires OrdersOk(db) && RowsOk(db) && CoverageOk(db)
    requires o < |db.orders| && db.orders[o].status == Ready && Consumes(db, o, db')
    ensures Evolves(db, db') && OrdersOk(db') && RowsOk(db') && CoverageOk(db')
  {
    ReplacedOrdersOk(db, o, db.orders[o].(status := Fulfilled));
    FollowEvolves(db, db', o, Fulfilled);
    RowsFollow(db, db', o, Fulfilled);
  }

  /** The group of a fulfilled order, old or new, stays posted. */
  lemma FulfilledGroup(db: Database, call: Call, db': Database, o: Id, g: Group)
    requires FulfilledPosted(db) && Evolves(db, db')
    requires CallOk(db, call) && call.stage == BeforeFinalize
    requires o < |db.orders| && (o == call.order || db.orders[o].status == Fulfilled) && Frozen(db.orders[o].status)
    ensures FullPlan(db'.orders, db'.allocations, o, g) == [] || GroupPosted(db', o, g)
  {
    assert OrderEvolves(db.orders[o], db'.orders[o]);
    FullPlanStable(db.orders, db.allocations, db'.orders, db'.allocations, o, g);
    assert FullPlan(db.orders, db.allocations, o, g) == [] || GroupPosted(db, o, g);
  }

  lemma FinalizedPosted(db: Database, call: Call, db': Database)
    requires FulfilledPosted(db) && Evolves(db, db')
    requires CallOk(db, call) && call.stage == BeforeFinalize
    requires db'.orders == Replace(db, call.order, db.orders[call.order].(status := Fulfilled)).orders
    ensures FulfilledPosted(db')
  {
    forall o, g | 0 <= o < |db'.orders| && db'.orders[o].status == Fulfilled
      ensures FullPlan(db'.orders, db'.allocations, o, g) == [] || GroupPosted(db', o, g)
    {
      FulfilledGroup(db, call, db', o, g);
    }
  }

  lemma FinalizedHistory(db: Database, o: Id, db': Database)
    requires o < |db.orders| && Consumes(db, o, db')
    ensures HistoryOk(db')
  {
    ConsumedRowsSame(db.orders, db'.allocations, db'.orders, db'.allocations);
  }

  lemma FulfilledStep(s: System, call: Call, db': Database)
    requires Inv(s) && CallOk(s.db, call) && call.stage == BeforeFinalize && s.db.orders[call.order].status == Ready
    requires Consumes(s.db, call.order, db')
    ensures Inv(s.(db := db'))
  {
    FinalizedDatabase(s.db, call.order, db');
    FinalizedHistory(s.db, call.order, db');
    FinalizedPosted(s.db, call, db');
    KeepsRest(s, db');
  }

  /** What finishing a call does to the database: nothing, or it consumes its READY order. */
  lemma FinishDatabase(s: System, c: nat) returns (consumed: Option<Id>)
    requires OrdersOk(s.db) && RowsOk(s.db) && HistoryOk(s.db) && PostingsOk(s.db) && CallsOk(s.db, s.calls)
    ensures consumed.None? ==> FinishStep(s, c).db == s.db
    ensures consumed.Some? ==> consumed.value < |s.db.orders| && s.db.orders[consumed.value].status == Ready
    ensures consumed.Some? ==> Consumes(s.db, consumed.value, FinishStep(s, c).db)
  {
    consumed := None;
    if c < |s.calls| && s.calls[c].stage == BeforeFinalize {
      assert CallOk(s.db, s.calls[c]);
      FinalizeExact(s.db, s.calls[c]);
      if s.db.orders[s.calls[c].order].status == Ready { consumed := Some(s.calls[c].order); }
    }
  }

  lemma FinalizeKeeps(s: System, call: Call)
    requires Inv(s) && CallOk(s.db, call) && call.stage == BeforeFinalize
    ensures Inv(Commit(s, Finalize(s.db, call.order, call.version, call.general, call.job)))
  {
    var r := Finalize(s.db, call.order, call.version, call.general, call.job);
    FinalizeExact(s.db, call);
    if s.db.orders[call.order].status == Ready {
      FulfilledStep(s, call, r.value);
      SameInv(Commit(s, r), s.(db := r.value));
    }
  }

  lemma FinishKeeps(s: System, c: nat)
    requires Inv(s)
    ensures Inv(FinishStep(s, c))
  {
    if c < |s.calls| && s.calls[c].stage == BeforeFinalize {
      var call := s.calls[c];
      assert CallOk(s.db, call);
      FinalizeKeeps(s, call);
      ClosingKeeps(Commit(s, Finalize(s.db, call.order, call.version, call.general, call.job)), c);
    }
  }

  // ---------------------------------------------------------------------------
  // Posting

  /** The database after a new posting of one call's group. */
  ghost predicate NewPosting(db: Database, db': Database, o: Id, group: Group)
    requires o < |db.orders|
  {
    var key := PostingKey(db.orders[o].documentNo, group);
    var plan := FullPlan(db.orders, db.allocations, o, group);
    && plan != [] && key !in db.postings
    && DocumentKey(group, key) in db.documents
    && Withdraw(db.onHand, plan).Some?
    && key in db'.postings
    && db' == db.(onHand := Withdraw(db.onHand, plan).value,
                  postings := db.postings[key := Posting(group, o, plan, db'.postings[key].details)],
                  documents := db.documents[DocumentKey(group, key) := Posted])
  }

  lemma PostedGroups(db: Database, db': Database, o: Id, group: Group)
    requires o < |db.orders| && NewPosting(db, db', o, group)
    ensures forall p, g :: 0 <= p < |db.orders| ==>
      (GroupPosted(db', p, g) <==> GroupPosted(db, p, g) || (p == o && g == group))
    ensures !GroupPosted(db, o, group)
  {
  }

  /** What one posting adds to the posted total of a balance row is what it takes off hand. */
  lemma PostedAtAfter(db: Database, db': Database, o: Id, group: Group, key: Key)
    requires RowsOk(db) && o < |db.orders| && NewPosting(db, db', o, group)
    ensures PostedAt(db', key) == PostedAt(db, key) + MovedAt(FullPlan(db.orders, db.allocations, o, group), key)
  {
    PostedGroups(db, db', o, group);
    PlanMovesOwned(db.orders, db.allocations, o, group, key);
    var w, w' := PostedWeights(db, key), PostedWeights(db', key);
    var own := OwnedAt(db.orders, db.allocations, o, group, key);
    forall i | 0 <= i < |w| ensures w'[i] == w[i] + own[i] {
      assert RowOk(db, db.allocations[i]);
    }
    TotalPlus(w, own, w');
  }

  lemma NewPostingConserves(s: System, db': Database, o: Id, group: Group)
    requires RowsOk(s.db) && Conserved(s) && o < |s.db.orders| && NewPosting(s.db, db', o, group)
    ensures Conserved(s.(db := db'))
  {
    var plan := FullPlan(s.db.orders, s.db.allocations, o, group);
    WithdrawExact(s.db.onHand, plan);
    forall k | k in db'.onHand
      ensures db'.onHand[k] >= 0 && db'.onHand[k] + PostedAt(db', k) == s.received[k]
    {
      PostedAtAfter(s.db, db', o, group, k);
    }
  }

  lemma NewPostingPostings(db: Database, db': Database, o: Id, group: Group)
    requires PostingsOk(db) && o < |db.orders| && Frozen(db.orders[o].status) && NewPosting(db, db', o, group)
    ensures PostingsOk(db')
  {
    forall key | key in db'.postings ensures PostingOk(db', key) {
      if key in db.postings { assert PostingOk(db, key); }
    }
  }

  lemma NewPostingCalls(db: Database, db': Database, calls: seq<Call>, o: Id, group: Group)
    requires CallsOk(db, calls) && o < |db.orders| && NewPosting(db, db', o, group)
    ensures CallsOk(db', calls)
  {
    PostedGroups(db, db', o, group);
    forall c | 0 <= c < |calls| ensures CallOk(db', calls[c]) {
      assert CallOk(db, calls[c]);
    }
  }

  /** Steps outside the order tables leave what they say in place. */
  lemma TablesKept(db: Database, db': Database)
    requires OrdersOk(db) && RowsOk(db) && CoverageOk(db) && HistoryOk(db)
    requires db'.orders == db.orders && db'.allocations == db.allocations && db'.fulfilments == db.fulfilments
    requires db.onHand.Keys <= db'.onHand.Keys
    ensures OrdersOk(db') && RowsOk(db') && CoverageOk(db') && HistoryOk(db')
  {
    forall i | 0 <= i < |db'.allocations| ensures RowOk(db', db'.allocations[i]) {
      assert RowOk(db, db.allocations[i]);
      assert db.allocations[i].key in db.onHand.Keys;
    }
    forall p, ell | 0 <= p < |db'.orders| && 0 <= ell < |db'.orders[p].lines| ensures LineOk(db', p, ell) {
      assert LineOk(db, p, ell);
    }
  }

  lemma NewPostingKeeps(s: System, db': Database, o: Id, group: Group)
    requires Inv(s) && o < |s.db.orders| && Frozen(s.db.orders[o].status) && NewPosting(s.db, db', o, group)
    ensures Inv(s.(db := db'))
  {
    WithdrawExact(s.db.onHand, FullPlan(s.db.orders, s.db.allocations, o, group));
    NewPostingPostings(s.db, db', o, group);
    NewPostingCalls(s.db, db', s.calls, o, group);
    NewPostingConserves(s, db', o, group);
    TablesKept(s.db, db');
    NewPostingFulfilled(s.db, db', o, group);
  }

  lemma NewPostingFulfilled(db: Database, db': Database, o: Id, group: Group)
    requires FulfilledPosted(db) && o < |db.orders| && NewPosting(db, db', o, group)
    ensures FulfilledPosted(db')
  {
    PostedGroups(db, db', o, group);
  }

  lemma AdvancingKeeps(s: System, c: nat, group: Group)
    requires Inv(s) && c < |s.calls| && s.calls[c].stage == StageFor(group)
    requires Moves(s.calls[c], group) == [] ||
      (s.calls[c].order < |s.db.orders| && GroupPosted(s.db, s.calls[c].order, group))
    ensures Inv(AtStage(s, c, StageAfter(group)))
  {
    assert CallOk(s.db, s.calls[c]);
  }

  /** A posting that the service accepts is a replay of the same plan, or it is new. */
  lemma AcceptedPosting(s: System, c: nat, group: Group, eligible: bool) returns (db': Database)
    requires Inv(s) && c < |s.calls| && Moves(s.calls[c], group) != []
    requires PostOf(s, c, group, eligible).Ok?
    ensures PostOf(s, c, group, eligible) == Ok(db')
    ensures Inv(s.(db := db'))
    ensures CallOk(s.db, s.calls[c])
    ensures GroupPosted(db', s.calls[c].order, group)
    ensures db' == s.db || NewPosting(s.db, db', s.calls[c].order, group)
    ensures db' == s.db <==> GroupPosted(s.db, s.calls[c].order, group)
  {
    var call := s.calls[c];
    assert CallOk(s.db, call);
    var key := PostingKey(DocumentNo(s.db, call.order), group);
    db' := PostOf(s, c, group, eligible).value;
    if key !in s.db.postings {
      NewPostingKeeps(s, db', call.order, group);
    }
  }

  lemma PostKeeps(s: System, c: nat, group: Group, eligible: bool, acknowledged: bool)
    requires Inv(s)
    ensures Inv(PostStep(s, c, group, eligible, acknowledged))
  {
    if c < |s.calls| && s.calls[c].stage == StageFor(group) {
      var call := s.calls[c];
      if Moves(call, group) == [] {
        AdvancingKeeps(s, c, group);
      } else if PostOf(s, c, group, eligible).Ok? {
        PostedKeeps(s, c, group, eligible, PostOf(s, c, group, eligible).value);
      }
    }
  }

  lemma PostedKeeps(s: System, c: nat, group: Group, eligible: bool, db': Database)
    requires Inv(s) && c < |s.calls| && s.calls[c].stage == StageFor(group) && Moves(s.calls[c], group) != []
    requires PostOf(s, c, group, eligible) == Ok(db')
    ensures Inv(s.(db := db')) && Inv(AtStage(s.(db := db'), c, StageAfter(group)))
  {
    var _ := AcceptedPosting(s, c, group, eligible);
    AdvancingKeeps(s.(db := db'), c, group);
  }

  // ---------------------------------------------------------------------------
  // Prepare, compensation, receipts

  /** Adding or dropping documents that carry no posting. */
  lemma DocumentsStep(s: System, documents: map<DocumentKey, DocumentStatus>)
    requires Inv(s)
    requires forall d :: d in s.db.documents && s.db.documents[d] == Posted ==> d in documents && documents[d] == Posted
    requires forall d :: d in documents && documents[d] == Posted ==> d in s.db.documents && s.db.documents[d] == Posted
    ensures Inv(s.(db := s.db.(documents := documents)))
  {
    DocumentsEvolve(s.db, documents);
    QuietStep(s, s.db.(documents := documents));
  }

  lemma DocumentsEvolve(db: Database, documents: map<DocumentKey, DocumentStatus>)
    requires OrdersOk(db) && RowsOk(db) && CoverageOk(db) && HistoryOk(db)
    requires forall d :: d in db.documents && db.documents[d] == Posted ==> d in documents && documents[d] == Posted
    requires forall d :: d in documents && documents[d] == Posted ==> d in db.documents && db.documents[d] == Posted
    ensures var db' := db.(documents := documents);
      Evolves(db, db') && OrdersOk(db') && RowsOk(db') && CoverageOk(db')
  {
    TablesKept(db, db.(documents := documents));
  }

  /** Keys taken by other modules carry nothing of an order. */
  lemma ElsewhereKeeps(s: System, key: string)
    requires Inv(s)
    ensures Inv(s.(db := TakeKey(s.db, key)))
  {
    var db' := TakeKey(s.db, key);
    TablesKept(s.db, db');
    QuietStep(s, db');
  }

  lemma CallAdded(s: System, call: Call)
    requires Inv(s) && CallOk(s.db, call)
    ensures Inv(s.(calls := s.calls + [call]))
  {
  }

  lemma PreparedCall(db: Database, o: Id, v: nat, details: Details)
    requires RowsOk(db) && Prepare(db, o, v).Ok? && Prepare(db, o, v).value.1.Planned?
    ensures var p := Prepare(db, o, v).value;
      && CallOk(p.0, Call(o, v, p.1.general, p.1.job, details, BeforeGeneral)) && p.0 == db.(documents := p.0.documents)
      && (forall d :: d in db.documents ==> d in p.0.documents && p.0.documents[d] == db.documents[d])
      && (forall d :: d in p.0.documents && p.0.documents[d] == Posted ==>
           d in db.documents && db.documents[d] == Posted)
  {
    forall i | 0 <= i < |db.allocations| && db.allocations[i].order == o ensures db.allocations[i].status == Active {
      assert RowOk(db, db.allocations[i]);
    }
    PlanIsFull(db.orders, db.allocations, o, General);
    PlanIsFull(db.orders, db.allocations, o, JobOutput);
  }

  lemma BeginKeeps(s: System, o: Id, v: nat, details: Details)
    requires Inv(s)
    ensures Inv(BeginStep(s, o, v, details))
  {
    var r := Prepare(s.db, o, v);
    if r.Ok? && r.value.1.Planned? {
      PreparedCall(s.db, o, v, details);
      PreparedStep(s, r.value.0, Call(o, v, r.value.1.general, r.value.1.job, details, BeforeGeneral));
    }
  }

  lemma PreparedStep(s: System, db': Database, call: Call)
    requires Inv(s) && db' == s.db.(documents := db'.documents) && CallOk(db', call)
    requires forall d :: d in s.db.documents && s.db.documents[d] == Posted ==>
      d in db'.documents && db'.documents[d] == Posted
    requires forall d :: d in db'.documents && db'.documents[d] == Posted ==>
      d in s.db.documents && s.db.documents[d] == Posted
    ensures Inv(s.(db := db', calls := s.calls + [call]))
  {
    DocumentsStep(s, db'.documents);
    CallAdded(s.(db := db'), call);
  }

  lemma AbandonKeeps(s: System, c: nat, dropGeneral: bool, dropJob: bool)
    requires Inv(s)
    ensures Inv(AbandonStep(s, c, dropGeneral, dropJob))
  {
    if c < |s.calls| && s.calls[c].stage in {BeforeGeneral, BeforeJob} {
      var documents := AbandonStep(s, c, dropGeneral, dropJob).db.documents;
      DocumentsStep(s, documents);
      var dropped := s.(db := s.db.(documents := documents));
      ClosingKeeps(dropped, c);
      assert AbandonStep(s, c, dropGeneral, dropJob) == AtStage(dropped, c, Closed);
    }
  }

  lemma ReceivedPostings(db: Database, db': Database, calls: seq<Call>)
    requires PostingsOk(db) && CallsOk(db, calls) && FulfilledPosted(db) && db' == db.(onHand := db'.onHand)
    ensures PostingsOk(db') && CallsOk(db', calls) && FulfilledPosted(db')
  {
    forall key | key in db'.postings ensures PostingOk(db', key) { assert PostingOk(db, key); }
    forall c | 0 <= c < |calls| ensures CallOk(db', calls[c]) { assert CallOk(db, calls[c]); }
    forall o, g | 0 <= o < |db.orders| && db.orders[o].status == Fulfilled
      ensures FullPlan(db'.orders, db'.allocations, o, g) == [] || GroupPosted(db', o, g)
    {
      assert FullPlan(db.orders, db.allocations, o, g) == [] || GroupPosted(db, o, g);
    }
  }

  lemma ReceivedConserved(s: System, key: Key, quantity: nat)
    requires RowsOk(s.db) && Conserved(s)
    ensures Conserved(ReceiveStep(s, key, quantity))
  {
    var s' := ReceiveStep(s, key, quantity);
    forall k | k in s'.db.onHand
      ensures s'.db.onHand[k] >= 0 && s'.db.onHand[k] + PostedAt(s'.db, k) == s'.received[k]
    {
      assert PostedWeights(s'.db, k) == PostedWeights(s.db, k);
      if k !in s.db.onHand {
        forall i | 0 <= i < |s.db.allocations| ensures s.db.allocations[i].key != k {
          assert RowOk(s.db, s.db.allocations[i]);
        }
        TotalZero(PostedWeights(s.db, k));
      }
    }
  }

  lemma ReceiveKeeps(s: System, key: Key, quantity: nat)
    requires Inv(s)
    ensures Inv(ReceiveStep(s, key, quantity))
  {
    var s' := ReceiveStep(s, key, quantity);
    TablesKept(s.db, s'.db);
    ReceivedPostings(s.db, s'.db, s.calls);
    ReceivedConserved(s, key, quantity);
  }

  // ---------------------------------------------------------------------------
  // Every run

  lemma StepKeeps(s: System, step: Step)
    requires Inv(s) && Possible(step)
    ensures Inv(Next(s, step))
  {
    if step.BeginFulfil? || step.PostGroup? || step.FinishFulfil? || step.AbandonFulfil? || step.CrashFulfil? {
      FulfilStepsKeep(s, step);
    } else if step.EditDraft? || step.SubmitOrder? || step.ApproveOrder? || step.StartProduction? {
      EarlyStepsKeep(s, step);
    } else {
      StockStepsKeep(s, step);
    }
  }

  lemma StockStepsKeep(s: System, step: Step)
    requires Inv(s) && Possible(step)
    requires step.NewDraft? || step.AllocateOrder? || step.ReadyOrder? || step.CancelOrder? || step.ReceiveStock? ||
      step.PostElsewhere?
    ensures Inv(Next(s, step))
  {
    match step
    case NewDraft(documentNo, lines) => CreateKeeps(s, documentNo, lines);
    case AllocateOrder(o, v, view) => var _ := AllocateKeeps(s, o, v, view);
    case ReadyOrder(o, v, view) => var _ := MarkReadyKeeps(s, o, v, view);
    case CancelOrder(o, v, reasonGiven) => CancelKeeps(s, o, v, reasonGiven);
    case ReceiveStock(key, quantity) => ReceiveKeeps(s, key, quantity);
    case PostElsewhere(key) => ElsewhereKeeps(s, key);
  }

  lemma FulfilStepsKeep(s: System, step: Step)
    requires Inv(s)
    requires step.BeginFulfil? || step.PostGroup? || step.FinishFulfil? || step.AbandonFulfil? || step.CrashFulfil?
    ensures Inv(Next(s, step))
  {
    if step.BeginFulfil? {
      BeginKeeps(s, step.order, step.version, step.details);
    } else if step.PostGroup? {
      PostKeeps(s, step.call, step.group, step.eligible, step.acknowledged);
    } else {
      LastStepsKeep(s, step);
    }
  }

  lemma LastStepsKeep(s: System, step: Step)
    requires Inv(s)
    requires step.FinishFulfil? || step.AbandonFulfil? || step.CrashFulfil?
    ensures Inv(Next(s, step))
  {
    if step.FinishFulfil? {
      FinishKeeps(s, step.call);
      NextIsFinish(s, step);
    } else if step.AbandonFulfil? {
      AbandonKeeps(s, step.call, step.dropGeneral, step.dropJob);
      NextIsAbandon(s, step);
    } else {
      CrashKeeps(s, step.call);
      NextIsCrash(s, step);
    }
  }

  lemma NextIsFinish(s: System, step: Step)
    requires step.FinishFulfil?
    ensures Next(s, step) == FinishStep(s, step.call)
  {
  }

  lemma NextIsAbandon(s: System, step: Step)
    requires step.AbandonFulfil?
    ensures Next(s, step) == AbandonStep(s, step.call, step.dropGeneral, step.dropJob)
  {
  }

  lemma NextIsCrash(s: System, step: Step)
    requires step.CrashFulfil?
    ensures Next(s, step) == CrashStep(s, step.call)
  {
  }

  lemma CrashKeeps(s: System, c: nat)
    requires Inv(s)
    ensures Inv(CrashStep(s, c))
  {
    if c < |s.calls| { ClosingKeeps(s, c); }
  }

  ghost predicate AllPossible(steps: seq<Step>) {
    forall i :: 0 <= i < |steps| ==> Possible(steps[i])
  }

  ghost predicate StockedStart(onHand: map<Key, int>) {
    forall k :: k in onHand ==> onHand[k] >= 0
  }

  lemma StartHolds(onHand: map<Key, int>)
    requires StockedStart(onHand)
    ensures Inv(Start(onHand))
  {
    var s := Start(onHand);
    forall k | k in s.db.onHand ensures PostedAt(s.db, k) == 0 {
      assert PostedWeights(s.db, k) == [];
    }
    assert ConsumedRows(s.db.orders, s.db.allocations) == multiset{};
  }

  /** In every run from any stock on hand, whatever the calls, retries and crashes, the invariant holds. */
  lemma {:induction false} EveryRun(onHand: map<Key, int>, steps: seq<Step>)
    requires StockedStart(onHand) && AllPossible(steps)
    ensures Inv(Run(Start(onHand), steps))
  {
    if steps == [] {
      StartHolds(onHand);
    } else {
      var n := |steps| - 1;
      EveryRun(onHand, steps[..n]);
      StepKeeps(Run(Start(onHand), steps[..n]), steps[n]);
    }
  }
}
