/**
 * What every run of the fulfilment engine guarantees, with no hypothesis about cancellations:
 * exactly-once posting and consumption, exact coverage of demand, the order lifecycle, and
 * conservation of stock.
 */
module FulfilmentTheorems {
  import opened Common
  import opened Fefo
  import opened Orders
  import opened OrderFacts
  import opened FulfilmentProtocol
  import opened FulfilmentInvariant

  // ---------------------------------------------------------------------------
  // Exactly once

  predicate PostedUnder(db: Database, i: Id, key: string) {
    key in db.postings && Carries(db.postings[key].movements, i)
  }

  /** The one posting an allocation can ever be part of. */
  function OwnKey(db: Database, a: Allocation): string { HistoryRow(db.orders, a).posting }

  /** An allocation appears in one posting at most, the one its own line belongs to. */
  ghost predicate PostedOnce(db: Database) {
    forall i: Id, key: string :: PostedUnder(db, i, key) ==>
      i < |db.allocations| && key == OwnKey(db, db.allocations[i])
  }

  /** Within a posting no allocation appears twice, and each movement carries its row's key and quantity. */
  ghost predicate MovementsFaithful(db: Database) {
    && (forall key, p, q :: key in db.postings && 0 <= p < q < |db.postings[key].movements| ==>
          db.postings[key].movements[p].allocation != db.postings[key].movements[q].allocation)
    && (forall key, m :: key in db.postings && m in db.postings[key].movements ==>
          && m.allocation < |db.allocations| && m.key == db.allocations[m.allocation].key
          && m.quantity == db.allocations[m.allocation].quantity)
  }

  /** A row is CONSUMED exactly when its order is FULFILLED, and only after it was posted. */
  ghost predicate ConsumedIsPosted(db: Database) {
    forall i :: 0 <= i < |db.allocations| ==>
      && db.allocations[i].order < |db.orders|
      && (db.allocations[i].status == Consumed <==> db.orders[db.allocations[i].order].status == Fulfilled)
      && (db.allocations[i].status == Consumed ==> PostedUnder(db, i, OwnKey(db, db.allocations[i])))
  }

  /**
   * However many fulfil calls ran, were retried or crashed: every allocation is posted at most
   * once, as it stands; the fulfilment history is exactly one row per CONSUMED allocation; and
   * an order is FULFILLED only with every one of its allocations posted and CONSUMED.
   */
  lemma ExactlyOnce(onHand: map<Key, int>, steps: seq<Step>)
    requires StockedStart(onHand) && AllPossible(steps)
    ensures var db := Run(Start(onHand), steps).db;
      && PostedOnce(db) && MovementsFaithful(db) && ConsumedIsPosted(db)
      && multiset(db.fulfilments) == ConsumedRows(db.orders, db.allocations)
  {
    EveryRun(onHand, steps);
    var db := Run(Start(onHand), steps).db;
    PostedOnceHolds(db);
    MovementsFaithfulHold(db);
    ConsumedIsPostedHolds(db);
  }

  lemma PostedOnceHolds(db: Database)
    requires RowsOk(db) && PostingsOk(db)
    ensures PostedOnce(db)
  {
    forall i: Id, key: string | PostedUnder(db, i, key)
      ensures i < |db.allocations| && key == OwnKey(db, db.allocations[i]) {
      PostedUnderOwnKey(db, i, key);
    }
  }

  lemma MovementsFaithfulHold(db: Database)
    requires PostingsOk(db)
    ensures MovementsFaithful(db)
  {
    forall key, p, q | key in db.postings && 0 <= p < q < |db.postings[key].movements|
      ensures db.postings[key].movements[p].allocation != db.postings[key].movements[q].allocation
    {
      assert PostingOk(db, key);
      FullPlanOrdered(db.orders, db.allocations, db.postings[key].order, db.postings[key].group, p, q);
    }
    forall key, m | key in db.postings && m in db.postings[key].movements
      ensures m.allocation < |db.allocations| && m.key == db.allocations[m.allocation].key
        && m.quantity == db.allocations[m.allocation].quantity
    {
      assert PostingOk(db, key);
      PlanMember(db.orders, db.allocations, db.postings[key].order, db.postings[key].group, m);
    }
  }

  lemma ConsumedIsPostedHolds(db: Database)
    requires RowsOk(db) && PostingsOk(db) && FulfilledPosted(db)
    ensures ConsumedIsPosted(db)
  {
    forall i | 0 <= i < |db.allocations|
      ensures db.allocations[i].order < |db.orders|
      ensures db.allocations[i].status == Consumed <==> db.orders[db.allocations[i].order].status == Fulfilled
      ensures db.allocations[i].status == Consumed ==> PostedUnder(db, i, OwnKey(db, db.allocations[i]))
    {
      assert RowOk(db, db.allocations[i]);
      if db.allocations[i].status == Consumed {
        FulfilledRowPosted(db, i);
      }
    }
  }

  lemma PostedUnderOwnKey(db: Database, i: Id, key: string)
    requires RowsOk(db) && PostingsOk(db) && PostedUnder(db, i, key)
    ensures i < |db.allocations| && key == OwnKey(db, db.allocations[i])
    ensures RowPosted(db, db.allocations[i])
  {
    assert PostingOk(db, key);
    var p := db.postings[key];
    var j :| 0 <= j < |p.movements| && p.movements[j].allocation == i;
    FullPlanEntry(db.orders, db.allocations, p.order, p.group, j);
  }

  lemma FulfilledRowPosted(db: Database, i: nat)
    requires RowsOk(db) && PostingsOk(db) && FulfilledPosted(db)
    requires i < |db.allocations| && db.allocations[i].status == Consumed
    ensures PostedUnder(db, i, OwnKey(db, db.allocations[i]))
  {
    assert RowOk(db, db.allocations[i]);
    var o := db.allocations[i].order;
    var g := GroupOf(db.orders[o].lines[db.allocations[i].line]);
    FullPlanComplete(db.orders, db.allocations, o, g, i);
    assert FullPlan(db.orders, db.allocations, o, g) == [] || GroupPosted(db, o, g);
    assert PostingOk(db, PostingKey(db.orders[o].documentNo, g));
  }

  /** Row `i` in a later state: the same row, its status unchanged once it left ACTIVE. */
  ghost predicate RowFinal(before: Database, after: Database, i: nat)
    requires i < |before.allocations|
  {
    && i < |after.allocations| && SameRow(before.allocations[i], after.allocations[i])
    && (before.allocations[i].status != Active ==> after.allocations[i].status == before.allocations[i].status)
  }

  /** A row's status is written once: after RELEASED or CONSUMED it never changes again. */
  lemma RowStep(s: System, step: Step, i: nat)
    requires Inv(s) && Possible(step) && i < |s.db.allocations|
    ensures RowFinal(s.db, Next(s, step).db, i)
  {
    if step.AllocateOrder? || step.ReadyOrder? {
      AllocatingRow(s, step, i);
    } else if step.CancelOrder? {
      CancelRow(s, step, i);
    } else if step.FinishFulfil? {
      FinishRow(s, step.call, i);
      NextIsFinish(s, step);
    } else {
      RowsUntouched(s, step);
      SameRowFinal(s.db, Next(s, step).db, i);
    }
  }

  lemma SameRowFinal(before: Database, after: Database, i: nat)
    requires i < |before.allocations| && after.allocations == before.allocations
    ensures RowFinal(before, after, i)
  {
  }

  lemma AllocatingRow(s: System, step: Step, i: nat)
    requires Inv(s) && Possible(step) && i < |s.db.allocations| && (step.AllocateOrder? || step.ReadyOrder?)
    ensures RowFinal(s.db, Next(s, step).db, i)
  {
    var added := AllocatingAdds(s, step);
    AddedRowFinal(s.db, Next(s, step).db, added, i);
  }

  /** Allocate and mark-ready only append rows. */
  lemma AllocatingAdds(s: System, step: Step) returns (added: seq<Allocation>)
    requires RowsOk(s.db) && CoverageOk(s.db) && Possible(step) && (step.AllocateOrder? || step.ReadyOrder?)
    ensures Next(s, step).db.allocations == s.db.allocations + added
  {
    if step.AllocateOrder? {
      added := AllocateAppends(s.db, step.order, step.version, step.view);
    } else {
      added := ReadyAppends(s.db, step.order, step.version, step.view);
    }
  }

  lemma AllocateAppends(db: Database, o: Id, v: nat, view: StockView) returns (added: seq<Allocation>)
    requires RowsOk(db) && WellRead(view)
    ensures if Allocate(db, o, v, view).Ok? then Allocate(db, o, v, view).value.allocations == db.allocations + added
            else added == []
  {
    added := [];
    if Allocate(db, o, v, view).Ok? && db.orders[o].status != Allocated {
      added := AllocatedRows(db, o, v, view);
    }
  }

  lemma ReadyAppends(db: Database, o: Id, v: nat, view: StockView) returns (added: seq<Allocation>)
    requires RowsOk(db) && CoverageOk(db) && WellRead(view)
    ensures if MarkReady(db, o, v, view).Ok? then MarkReady(db, o, v, view).value.allocations == db.allocations + added
            else added == []
  {
    added := [];
    if MarkReady(db, o, v, view).Ok? && db.orders[o].status != Ready {
      added := ReadiedRows(db, o, v, view);
    }
  }

  lemma AddedRowFinal(before: Database, after: Database, added: seq<Allocation>, i: nat)
    requires i < |before.allocations| && after.allocations == before.allocations + added
    ensures RowFinal(before, after, i)
  {
  }

  lemma CancelRow(s: System, step: Step, i: nat)
    requires i < |s.db.allocations| && step.CancelOrder?
    ensures RowFinal(s.db, Next(s, step).db, i)
  {
  }

  lemma FinishRow(s: System, c: nat, i: nat)
    requires OrdersOk(s.db) && RowsOk(s.db) && HistoryOk(s.db) && PostingsOk(s.db) && CallsOk(s.db, s.calls)
    requires i < |s.db.allocations|
    ensures RowFinal(s.db, FinishStep(s, c).db, i)
  {
    var consumed := FinishDatabase(s, c);
    if consumed.Some? {
      ConsumedRowFinal(s.db, consumed.value, FinishStep(s, c).db, i);
    } else {
      SameRowFinal(s.db, FinishStep(s, c).db, i);
    }
  }

  lemma ConsumedRowFinal(db: Database, o: Id, db': Database, i: nat)
    requires RowsOk(db) && o < |db.orders| && db.orders[o].status == Ready && Consumes(db, o, db') &&
      i < |db.allocations|
    ensures RowFinal(db, db', i)
  {
    assert RowOk(db, db.allocations[i]);
  }

  lemma RowsUntouched(s: System, step: Step)
    requires !(step.AllocateOrder? || step.ReadyOrder? || step.CancelOrder? || step.FinishFulfil?)
    ensures Next(s, step).db.allocations == s.db.allocations
  {
  }

  lemma {:induction false} HistoryGrows(db: Database, g: Option<string>, j: Option<string>, movements: seq<Movement>)
    ensures var r := ConsumeAll(db, g, j, movements);
      r.Ok? ==> db.fulfilments <= r.value.fulfilments
  {
    if movements != [] { HistoryGrows(db, g, j, movements[..|movements| - 1]); }
  }

  lemma HistoryStep(s: System, step: Step)
    ensures s.db.fulfilments <= Next(s, step).db.fulfilments
  {
    if step.FinishFulfil? {
      HistoryFinish(s, step.call);
    }
  }

  lemma HistoryFinish(s: System, c: nat)
    ensures s.db.fulfilments <= FinishStep(s, c).db.fulfilments
  {
    if c < |s.calls| && s.calls[c].order < |s.db.orders| {
      var call := s.calls[c];
      var order := s.db.orders[call.order];
      HistoryGrows(s.db,
        if call.general != [] then Some(PostingKey(order.documentNo, General)) else None,
        if call.job != [] then Some(PostingKey(order.documentNo, JobOutput)) else None,
        call.general + call.job);
    }
  }

  lemma RunLast(s: System, steps: seq<Step>, step: Step)
    ensures Run(s, steps + [step]) == Next(Run(s, steps), step)
  {
    assert (steps + [step])[..|steps|] == steps;
  }

  lemma PossibleBefore(steps: seq<Step>, step: Step)
    requires AllPossible(steps + [step])
    ensures AllPossible(steps) && Possible(step)
  {
    assert forall k :: 0 <= k < |steps| ==> steps[k] == (steps + [step])[k];
    assert (steps + [step])[|steps|] == step;
  }

  lemma OneMoreStep(onHand: map<Key, int>, steps: seq<Step>, step: Step, i: nat)
    requires StockedStart(onHand) && AllPossible(steps) && Possible(step)
    requires i < |Run(Start(onHand), steps).db.allocations|
    ensures var s := Run(Start(onHand), steps);
      RowFinal(s.db, Next(s, step).db, i) && s.db.fulfilments <= Next(s, step).db.fulfilments
  {
    EveryRun(onHand, steps);
    RowStep(Run(Start(onHand), steps), step, i);
    HistoryStep(Run(Start(onHand), steps), step);
  }

  lemma FinalThrough(a: Database, b: Database, c: Database, i: nat)
    requires i < |a.allocations| && RowFinal(a, b, i) && RowFinal(b, c, i)
    requires a.fulfilments <= b.fulfilments <= c.fulfilments
    ensures RowFinal(a, c, i) && a.fulfilments <= c.fulfilments
  {
  }

  /** Consumption and release are final, and the fulfilment history is append-only, over whole runs. */
  lemma {:induction false} ConsumedForever(onHand: map<Key, int>, steps: seq<Step>, more: seq<Step>, i: nat)
    requires StockedStart(onHand) && AllPossible(steps + more)
    requires i < |Run(Start(onHand), steps).db.allocations|
    ensures var before, after := Run(Start(onHand), steps).db, Run(Start(onHand), steps + more).db;
      RowFinal(before, after, i) && before.fulfilments <= after.fulfilments
  {
    if more == [] {
      assert steps + more == steps;
    } else {
      var n := |more| - 1;
      var earlier := steps + more[..n];
      assert steps + more == earlier + [more[n]];
      PossibleBefore(earlier, more[n]);
      ConsumedForever(onHand, steps, more[..n], i);
      OneMoreStep(onHand, earlier, more[n], i);
      RunLast(Start(onHand), earlier, more[n]);
      FinalThrough(Run(Start(onHand), steps).db, Run(Start(onHand), earlier).db, Run(Start(onHand), steps + more).db,
        i);
    }
  }

  // ---------------------------------------------------------------------------
  // Coverage of demand

  /** Quantity of one item (or in all) held by the rows of one line in one status. */
  function HeldTotal(rows: seq<Allocation>, o: Id, line: nat, item: Option<Id>, status: AllocationStatus): nat {
    if rows == [] then 0 else
      var n := |rows| - 1;
      HeldTotal(rows[..n], o, line, item, status)
      + (if rows[n].order == o && rows[n].line == line && Matches(item, rows[n].key.lot.item) &&
        rows[n].status == status
         then rows[n].quantity else 0)
  }

  lemma {:induction false} HeldIsAll(rows: seq<Allocation>, o: Id, line: nat, item: Option<Id>,
      status: AllocationStatus)
    requires forall i :: 0 <= i < |rows| && rows[i].order == o ==> rows[i].status == status
    ensures HeldTotal(rows, o, line, item, status) == RowsTotal(rows, o, line, item)
  {
    if rows != [] { HeldIsAll(rows[..|rows| - 1], o, line, item, status); }
  }

  lemma {:induction false} HeldIsNone(rows: seq<Allocation>, o: Id, line: nat, item: Option<Id>,
      status: AllocationStatus)
    requires forall i :: 0 <= i < |rows| && rows[i].order == o ==> rows[i].status != status
    ensures HeldTotal(rows, o, line, item, status) == 0
  {
    if rows != [] { HeldIsNone(rows[..|rows| - 1], o, line, item, status); }
  }

  /** Quantity the fulfilment history records for one line. */
  function HistoryTotal(history: seq<Fulfilment>, o: Id, line: nat): nat {
    if history == [] then 0 else
      var n := |history| - 1;
      HistoryTotal(history[..n], o, line)
      + (if history[n].order == o && history[n].line == line then history[n].quantity else 0)
  }

  lemma {:induction false} HistoryTotalDrop(history: seq<Fulfilment>, j: nat, o: Id, line: nat)
    requires j < |history|
    ensures HistoryTotal(history, o, line) == HistoryTotal(history[..j] + history[j + 1..], o, line)
      + (if history[j].order == o && history[j].line == line then history[j].quantity else 0)
  {
    var n := |history| - 1;
    var rest := history[..j] + history[j + 1..];
    if j == n {
      assert rest == history[..n];
    } else {
      HistoryTotalDrop(history[..n], j, o, line);
      assert rest[..n - 1] == history[..n][..j] + history[..n][j + 1..];
      assert rest[n - 1] == history[n];
    }
  }

  lemma WithoutOne(history: seq<Fulfilment>, h: Fulfilment, o: Id, line: nat) returns (rest: seq<Fulfilment>)
    requires h in multiset(history)
    ensures multiset(rest) == multiset(history) - multiset{h}
    ensures HistoryTotal(history, o, line) == HistoryTotal(rest, o, line)
      + (if h.order == o && h.line == line then h.quantity else 0)
  {
    var j :| 0 <= j < |history| && history[j] == h;
    rest := history[..j] + history[j + 1..];
    assert history == history[..j] + [h] + history[j + 1..];
    assert multiset(history) == multiset(rest) + multiset{h};
    HistoryTotalDrop(history, j, o, line);
  }

  /** The history total of a line is the total of its CONSUMED rows. */
  lemma {:induction false} HistoryIsConsumed(orders: seq<Order>, rows: seq<Allocation>, history: seq<Fulfilment>, o: Id,
      line: nat)
    requires multiset(history) == ConsumedRows(orders, rows)
    ensures HistoryTotal(history, o, line) == HeldTotal(rows, o, line, None, Consumed)
  {
    if rows == [] {
      assert |multiset(history)| == |history|;
    } else {
      var n := |rows| - 1;
      if rows[n].status == Consumed {
        var rest := WithoutOne(history, HistoryRow(orders, rows[n]), o, line);
        HistoryIsConsumed(orders, rows[..n], rest, o, line);
      } else {
        HistoryIsConsumed(orders, rows[..n], history, o, line);
      }
    }
  }

  /**
   * What the rows of a line say in each status of its order: nothing is held before allocation; a
   * READY line holds exactly its demand, item by item; a FULFILLED line has consumed exactly its
   * demand, the history records exactly that, and nothing stays ACTIVE; a CANCELLED line holds nothing.
   */
  ghost predicate CoverageIs(db: Database, o: Id, ell: nat)
    requires o < |db.orders| && ell < |db.orders[o].lines|
  {
    var status, line := db.orders[o].status, db.orders[o].lines[ell];
    && (status in {Draft, Submitted, Approved} ==> NoRows(db.allocations, o, ell))
    && (status == Ready ==> forall item :: HeldTotal(db.allocations, o, ell, item, Active) == Demand(line, item))
    && (status == Fulfilled ==>
          && (forall item :: HeldTotal(db.allocations, o, ell, item, Consumed) == Demand(line, item))
          && (forall item :: HeldTotal(db.allocations, o, ell, item, Active) == 0)
          && HistoryTotal(db.fulfilments, o, ell) == Demand(line, None))
    && (status == Cancelled ==> forall item ::
          && HeldTotal(db.allocations, o, ell, item, Active) == 0
          && HeldTotal(db.allocations, o, ell, item, Consumed) == 0)
  }

  lemma HeldByStatus(db: Database, o: Id, ell: nat, item: Option<Id>, held: AllocationStatus)
    requires RowsOk(db) && o < |db.orders|
    ensures HeldTotal(db.allocations, o, ell, item, held) ==
      if RowStatus(db.orders[o].status) == Some(held) then RowsTotal(db.allocations, o, ell, item) else 0
  {
    forall i | 0 <= i < |db.allocations| && db.allocations[i].order == o
      ensures RowStatus(db.orders[o].status) == Some(db.allocations[i].status)
    {
      assert RowOk(db, db.allocations[i]);
    }
    if RowStatus(db.orders[o].status) == Some(held) {
      HeldIsAll(db.allocations, o, ell, item, held);
    } else {
      HeldIsNone(db.allocations, o, ell, item, held);
    }
  }

  lemma CoverageFollows(db: Database, o: Id, ell: nat)
    requires RowsOk(db) && CoverageOk(db) && HistoryOk(db) && o < |db.orders| && ell < |db.orders[o].lines|
    ensures CoverageIs(db, o, ell)
  {
    assert LineOk(db, o, ell);
    forall item, held ensures HeldTotal(db.allocations, o, ell, item, held) ==
      if RowStatus(db.orders[o].status) == Some(held) then RowsTotal(db.allocations, o, ell, item) else 0
    {
      HeldByStatus(db, o, ell, item, held);
    }
    forall i | 0 <= i < |db.allocations| && db.allocations[i].order == o
      ensures RowStatus(db.orders[o].status) == Some(db.allocations[i].status)
    {
      assert RowOk(db, db.allocations[i]);
    }
    HistoryIsConsumed(db.orders, db.allocations, db.fulfilments, o, ell);
  }

  /** Coverage by status holds of every line in every reachable state. */
  lemma CoverageByStatus(onHand: map<Key, int>, steps: seq<Step>, o: Id, ell: nat)
    requires StockedStart(onHand) && AllPossible(steps)
    requires o < |Run(Start(onHand), steps).db.orders|
    requires ell < |Run(Start(onHand), steps).db.orders[o].lines|
    ensures CoverageIs(Run(Start(onHand), steps).db, o, ell)
  {
    EveryRun(onHand, steps);
    CoverageFollows(Run(Start(onHand), steps).db, o, ell);
  }

  // ---------------------------------------------------------------------------
  // Lifecycle and versions

  predicate Edge(a: Status, b: Status) {
    match a
    case Draft => b in {Draft, Submitted, Cancelled}
    case Submitted => b in {Approved, Cancelled}
    case Approved => b in {Allocated, Cancelled}
    case Allocated => b in {InProduction, Ready, Cancelled}
    case InProduction => b in {Ready, Cancelled}
    case Ready => b in {Fulfilled, Cancelled}
    case Fulfilled => false
    case Cancelled => false
  }

  /** The order a step acts on and the version its caller expects, where it has one. */
  function Expected(s: System, step: Step): Option<(Id, nat)> {
    match step
    case EditDraft(o, v, _) => Some((o, v))
    case SubmitOrder(o, v, _) => Some((o, v))
    case ApproveOrder(o, v, _) => Some((o, v))
    case AllocateOrder(o, v, _) => Some((o, v))
    case StartProduction(o, v) => Some((o, v))
    case ReadyOrder(o, v, _) => Some((o, v))
    case CancelOrder(o, v, _) => Some((o, v))
    case FinishFulfil(c) => if c < |s.calls| then Some((s.calls[c].order, s.calls[c].version)) else None
    case _ => None
  }

  /** One change of an order: along the lifecycle, its version advanced by one. */
  predicate Advanced(a: Order, b: Order) {
    && b.version == a.version + 1 && Edge(a.status, b.status)
    && b.documentNo == a.documentNo && (a.status != Draft ==> b.lines == a.lines)
  }

  /** A step leaves an order alone, or advances it at the version its caller expected. */
  lemma OrderStep(s: System, step: Step, o: Id)
    requires o < |s.db.orders|
    ensures OrderMove(s, Next(s, step), Expected(s, step), o)
  {
    if step.FinishFulfil? {
      FinishOrder(s, step.call, o);
    } else if step.EditDraft? || step.SubmitOrder? || step.ApproveOrder? || step.StartProduction? {
      EarlyOrder(s, step, o);
    } else if step.AllocateOrder? || step.ReadyOrder? || step.CancelOrder? {
      StockOrder(s, step, o);
    }
  }

  ghost predicate OrderMove(s: System, s': System, expected: Option<(Id, nat)>, o: Id)
    requires o < |s.db.orders|
  {
    && o < |s'.db.orders|
    && (s'.db.orders[o] == s.db.orders[o]
        || (expected == Some((o, s.db.orders[o].version)) && Advanced(s.db.orders[o], s'.db.orders[o])))
  }

  lemma EarlyOrder(s: System, step: Step, o: Id)
    requires o < |s.db.orders|
    requires step.EditDraft? || step.SubmitOrder? || step.ApproveOrder? || step.StartProduction?
    ensures OrderMove(s, Next(s, step), Expected(s, step), o)
  {
  }

  lemma StockOrder(s: System, step: Step, o: Id)
    requires o < |s.db.orders|
    requires step.AllocateOrder? || step.ReadyOrder? || step.CancelOrder?
    ensures OrderMove(s, Next(s, step), Expected(s, step), o)
  {
  }

  lemma FinishOrder(s: System, c: nat, o: Id)
    requires o < |s.db.orders|
    ensures OrderMove(s, FinishStep(s, c), Expected(s, FinishFulfil(c)), o)
  {
  }

  predicate Changes(s: System, step: Step, o: Id) {
    o < |s.db.orders| && o < |Next(s, step).db.orders| && Next(s, step).db.orders[o] != s.db.orders[o]
  }

  /** The expected versions of the steps that changed order `o`, in run order. */
  ghost function Mutations(s: System, steps: seq<Step>, o: Id): seq<nat> {
    if steps == [] then [] else
      var n := |steps| - 1;
      var before := Run(s, steps[..n]);
      var log := Mutations(s, steps[..n], o);
      if Changes(before, steps[n], o) && Expected(before, steps[n]).Some?
      then log + [Expected(before, steps[n]).value.1] else log
  }

  lemma NewOrdersAreDrafts(s: System, step: Step)
    ensures var s' := Next(s, step);
      && |s.db.orders| <= |s'.db.orders|
      && (forall o :: |s.db.orders| <= o < |s'.db.orders| ==>
           s'.db.orders[o].version == 1 && s'.db.orders[o].status == Draft)
  {
  }

  /** The version of an order counts its changes so far, and change `i` was requested at version `i + 1`. */
  ghost predicate Linear(s: System, log: seq<nat>, o: Id) {
    && (o >= |s.db.orders| ==> log == [])
    && (o < |s.db.orders| ==> s.db.orders[o].version == |log| + 1)
    && (forall i :: 0 <= i < |log| ==> log[i] == i + 1)
  }

  lemma LinearStep(s: System, step: Step, log: seq<nat>, o: Id)
    requires Linear(s, log, o)
    ensures Linear(Next(s, step),
                   if Changes(s, step, o) && Expected(s, step).Some? then log + [Expected(s, step).value.1] else log, o)
  {
    NewOrdersAreDrafts(s, step);
    if o < |s.db.orders| { OrderStep(s, step, o); }
  }

  /**
   * Optimistic versions linearize the life of an order: the changes that ever reached it were
   * requested with expected versions 1, 2, ..., n in that order, each used exactly once, and its
   * version is n + 1.
   */
  lemma {:induction false} VersionsLinearize(onHand: map<Key, int>, steps: seq<Step>, o: Id)
    ensures Linear(Run(Start(onHand), steps), Mutations(Start(onHand), steps, o), o)
  {
    if steps != [] {
      var n := |steps| - 1;
      VersionsLinearize(onHand, steps[..n], o);
      LinearStep(Run(Start(onHand), steps[..n]), steps[n], Mutations(Start(onHand), steps[..n], o), o);
    }
  }

  /** FULFILLED and CANCELLED are final, over whole runs. */
  lemma {:induction false} FinalStatuses(s: System, steps: seq<Step>, o: Id)
    requires o < |s.db.orders| && s.db.orders[o].status in {Fulfilled, Cancelled}
    ensures o < |Run(s, steps).db.orders| && Run(s, steps).db.orders[o] == s.db.orders[o]
  {
    if steps != [] {
      var n := |steps| - 1;
      FinalStatuses(s, steps[..n], o);
      OrderStep(Run(s, steps[..n]), steps[n], o);
    }
  }

  /** Maker-checker: an order past SUBMITTED was approved by someone other than its submitter. */
  lemma ApproverDiffers(onHand: map<Key, int>, steps: seq<Step>, o: Id)
    requires StockedStart(onHand) && AllPossible(steps)
    requires o < |Run(Start(onHand), steps).db.orders|
    ensures var order := Run(Start(onHand), steps).db.orders[o];
      && (order.status in {Approved, Allocated, InProduction, Ready, Fulfilled} ==> order.approvedBy.Some?)
      && (order.approvedBy.Some? ==> order.submittedBy.Some? && order.approvedBy != order.submittedBy)
  {
    EveryRun(onHand, steps);
    assert ApprovalOk(Run(Start(onHand), steps).db.orders[o]);
  }

  // ---------------------------------------------------------------------------
  // Job orders

  /** No two lines on file share a job order. */
  ghost predicate JobsOnce(orders: seq<Order>) {
    forall o, ell, p, m ::
      0 <= o < |orders| && 0 <= ell < |orders[o].lines| && 0 <= p < |orders| && 0 <= m < |orders[p].lines| ==>
      SameJob(orders[o].lines[ell], orders[p].lines[m]) ==> o == p && ell == m
  }

  ghost predicate SameLines(a: seq<Order>, b: seq<Order>) {
    |a| == |b| && forall o :: 0 <= o < |a| ==> b[o].lines == a[o].lines
  }

  lemma EarlyLines(s: System, step: Step)
    requires step.SubmitOrder? || step.ApproveOrder? || step.StartProduction?
    ensures SameLines(s.db.orders, Next(s, step).db.orders)
  {
  }

  lemma AllocateLinesKept(db: Database, o: Id, v: nat, view: StockView)
    ensures Allocate(db, o, v, view).Ok? ==> SameLines(db.orders, Allocate(db, o, v, view).value.orders)
    ensures MarkReady(db, o, v, view).Ok? ==> SameLines(db.orders, MarkReady(db, o, v, view).value.orders)
  {
  }

  lemma StockLines(s: System, step: Step)
    requires step.AllocateOrder? || step.ReadyOrder? || step.CancelOrder?
    ensures SameLines(s.db.orders, Next(s, step).db.orders)
  {
    if !step.CancelOrder? { AllocateLinesKept(s.db, step.order, step.version, step.view); }
  }

  lemma FinishLines(s: System, c: nat)
    ensures SameLines(s.db.orders, FinishStep(s, c).db.orders)
  {
  }

  /** Only drafting writes lines. */
  lemma LinesKept(s: System, step: Step)
    requires !step.NewDraft? && !step.EditDraft?
    ensures SameLines(s.db.orders, Next(s, step).db.orders)
  {
    if step.SubmitOrder? || step.ApproveOrder? || step.StartProduction? {
      EarlyLines(s, step);
    } else if step.AllocateOrder? || step.ReadyOrder? || step.CancelOrder? {
      StockLines(s, step);
    } else if step.FinishFulfil? {
      FinishLines(s, step.call);
    }
  }

  lemma SameJobsOnce(a: seq<Order>, b: seq<Order>)
    requires JobsOnce(a) && SameLines(a, b)
    ensures JobsOnce(b)
  {
  }

  lemma AddedJobsOnce(orders: seq<Order>, order: Order)
    requires JobsOnce(orders) && JobsFree(orders, order.lines)
    ensures JobsOnce(orders + [order])
  {
  }

  lemma EditedJobsOnce(orders: seq<Order>, o: Id, order: Order)
    requires o < |orders| && JobsOnce(orders) && JobsFree(orders[o := orders[o].(lines := [])], order.lines)
    ensures JobsOnce(orders[o := order])
  {
    var rest := orders[o := orders[o].(lines := [])];
    forall p, m, i | 0 <= p < |orders| && p != o && 0 <= m < |orders[p].lines| && 0 <= i < |order.lines|
      ensures !SameJob(orders[p].lines[m], order.lines[i])
    {
      assert rest[p] == orders[p];
    }
  }

  lemma JobsStep(s: System, step: Step)
    requires JobsOnce(s.db.orders)
    ensures JobsOnce(Next(s, step).db.orders)
  {
    if step.NewDraft? {
      var r := CreateDraft(s.db, step.documentNo, step.draftLines);
      if r.Ok? { AddedJobsOnce(s.db.orders, r.value.orders[|s.db.orders|]); }
    } else if step.EditDraft? {
      EditJobsOnce(s.db, step.order, step.version, step.lines);
    } else {
      LinesKept(s, step);
      SameJobsOnce(s.db.orders, Next(s, step).db.orders);
    }
  }

  lemma EditJobsOnce(db: Database, o: Id, v: nat, lines: Option<seq<Line>>)
    requires JobsOnce(db.orders)
    ensures UpdateDraft(db, o, v, lines).Ok? ==> JobsOnce(UpdateDraft(db, o, v, lines).value.orders)
  {
    var r := UpdateDraft(db, o, v, lines);
    if r.Ok? {
      if lines.Some? {
        EditedJobsOnce(db.orders, o, r.value.orders[o]);
      } else {
        SameJobsOnce(db.orders, r.value.orders);
      }
    }
  }

  /** In every run a job order's output is promised to one line at most. */
  lemma {:induction false} JobFeedsOneLine(onHand: map<Key, int>, steps: seq<Step>)
    ensures JobsOnce(Run(Start(onHand), steps).db.orders)
  {
    if steps != [] {
      var n := |steps| - 1;
      JobFeedsOneLine(onHand, steps[..n]);
      JobsStep(Run(Start(onHand), steps[..n]), steps[n]);
    }
  }

  // ---------------------------------------------------------------------------
  // Conservation, and the shape of posting keys

  /** On-hand plus everything posted is everything ever received, row by row, in every reachable state. */
  lemma StockConserved(onHand: map<Key, int>, steps: seq<Step>, key: Key)
    requires StockedStart(onHand) && AllPossible(steps)
    ensures var s := Run(Start(onHand), steps);
      && (key in s.db.onHand <==> key in s.received)
      && (key in s.db.onHand ==> s.db.onHand[key] >= 0 && s.db.onHand[key] + PostedAt(s.db, key) == s.received[key])
  {
    EveryRun(onHand, steps);
    var s := Run(Start(onHand), steps);
    assert key in s.db.onHand.Keys <==> key in s.received.Keys;
  }

  /** Two groups share an idempotency key only when one document number is the other plus the suffix. */
  lemma KeyCollision(a: string, g: Group, b: string, h: Group)
    ensures PostingKey(a, g) == PostingKey(b, h) <==>
      (g == h && a == b) || (g == General && h == JobOutput && a == b + ":JOBOUT")
      || (g == JobOutput && h == General && b == a + ":JOBOUT")
  {
    if g == JobOutput && h == JobOutput && a + ":JOBOUT" == b + ":JOBOUT" {
      assert |a| == |b|;
      assert a == (a + ":JOBOUT")[..|a|] == (b + ":JOBOUT")[..|b|] == b;
    }
  }
}
