/**
 * Which cancellations are harmless, exactly; and a run in which one that is not harmless leaves
 * more stock promised than there is on hand.
 */
module CancelRace {
  import opened Common
  import opened Fefo
  import opened Orders
  import opened OrderFacts
  import opened AllocationOutcome
  import opened FulfilmentProtocol
  import opened FulfilmentInvariant
  import opened FulfilmentTheorems
  import opened OrderRuns
  import opened StockSafety

  lemma RunOne(s: System, c: nat, group: Group)
    ensures Run(s, [PostGroup(c, group, true, true)]) == PostStep(s, c, group, true, true)
    ensures Calm(s, [PostGroup(c, group, true, true)])
  {
    var steps := [PostGroup(c, group, true, true)];
    assert steps[..0] == [] && Run(s, []) == s;
    assert Run(s, steps) == Next(s, steps[0]);
    assert Calm(s, []) && CalmStep(s, steps[0]);
  }

  lemma RunTwo(s: System, c: nat)
    ensures var steps := [PostGroup(c, General, true, true), PostGroup(c, JobOutput, true, true)];
      && Run(s, steps) == PostStep(PostStep(s, c, General, true, true), c, JobOutput, true, true)
      && Calm(s, steps)
  {
    var steps := [PostGroup(c, General, true, true), PostGroup(c, JobOutput, true, true)];
    RunOne(s, c, General);
    assert steps[..1] == [PostGroup(c, General, true, true)];
    assert Run(s, steps) == Next(Run(s, steps[..1]), steps[1]);
    assert CalmStep(Run(s, steps[..1]), steps[1]);
  }

  /** A posted group has rows; if its order is cancelled, one of them is posted and released. */
  lemma PostedThenCancelled(db: Database, o: Id, group: Group)
    requires RowsOk(db) && PostingsOk(db) && o < |db.orders| && db.orders[o].status == Cancelled
    requires GroupPosted(db, o, group)
    ensures !NeverPostedAndReleased(db)
  {
    var key := PostingKey(db.orders[o].documentNo, group);
    assert PostingOk(db, key);
    FullPlanEntry(db.orders, db.allocations, o, group, 0);
    var i := db.postings[key].movements[0].allocation;
    assert RowOk(db, db.allocations[i]);
    assert RowPosted(db, db.allocations[i]);
  }

  /** The rows of an unposted group of a READY order are outstanding. */
  lemma PlanOutstanding(db: Database, o: Id, group: Group, k: Key)
    requires RowsOk(db) && o < |db.orders| && db.orders[o].status == Ready && !GroupPosted(db, o, group)
    ensures MovedAt(FullPlan(db.orders, db.allocations, o, group), k) <= Outstanding(db, k)
  {
    PlanMovesOwned(db.orders, db.allocations, o, group, k);
    forall i | 0 <= i < |db.allocations|
      ensures OwnedAt(db.orders, db.allocations, o, group, k)[i] <= OutstandingWeights(db, k)[i]
    {
      assert RowOk(db, db.allocations[i]);
    }
    TotalMonotone(OwnedAt(db.orders, db.allocations, o, group, k), OutstandingWeights(db, k));
  }

  /** In a safe state, the plan of an unposted group of a READY order fits the stock on hand. */
  lemma PlanFits(s: System, o: Id, group: Group)
    requires SafeInv(s) && o < |s.db.orders| && s.db.orders[o].status == Ready && !GroupPosted(s.db, o, group)
    ensures Withdraw(s.db.onHand, FullPlan(s.db.orders, s.db.allocations, o, group)).Some?
  {
    var db := s.db;
    var plan := FullPlan(db.orders, db.allocations, o, group);
    forall m | m in plan ensures m.key in db.onHand {
      PlanMember(db.orders, db.allocations, o, group, m);
      assert RowOk(db, db.allocations[m.allocation]);
    }
    forall k | k in db.onHand ensures MovedAt(plan, k) <= db.onHand[k] {
      PlanOutstanding(db, o, group, k);
    }
    WithdrawFits(db.onHand, plan);
  }

  /** So a first posting never runs out of stock: the service's balance check cannot fail. */
  lemma PostingNeverShort(s: System, c: nat, group: Group, eligible: bool)
    requires SafeInv(s) && c < |s.calls| && s.calls[c].stage == StageFor(group) && Moves(s.calls[c], group) != []
    ensures PostOf(s, c, group, eligible).Err? ==> !PostOf(s, c, group, eligible).error.InsufficientStock?
  {
    var call := s.calls[c];
    assert CallOk(s.db, call);
    if s.db.orders[call.order].status == Ready {
      if !GroupPosted(s.db, call.order, group) { PlanFits(s, call.order, group); }
    } else if s.db.orders[call.order].status == Cancelled {
      assert NextGroup(call) == Some(group);
      assert Quiet(s, call.order) && !AboutToPost(s.db, call.order, call);
    } else {
      FulfilledGroups(s.db, call.order, group);
    }
  }

  /** The service's answer to a plan that fits the stock, and is the plan of its group. */
  lemma FittingPosted(db: Database, o: Id, group: Group, details: Id, eligible: bool)
    requires PostingsOk(db) && o < |db.orders|
    requires Withdraw(db.onHand, FullPlan(db.orders, db.allocations, o, group)).Some? || GroupPosted(db, o, group)
    ensures var key := PostingKey(db.orders[o].documentNo, group);
      Post(db, key, Posting(group, o, FullPlan(db.orders, db.allocations, o, group), details), eligible).Ok? <==>
        && DocumentKey(group, key) in db.documents
        && if key in db.postings
           then db.postings[key].order == o && db.postings[key].group == group && db.postings[key].details == details
           else eligible && key !in db.foreign
  {
    var key := PostingKey(db.orders[o].documentNo, group);
    if key in db.postings { assert PostingOk(db, key); }
  }

  /**
   * Exactly when a READY order's posting is accepted: its document is still there, and its key is
   * either free and the plan eligible, or taken by this very group with the same details.
   */
  lemma PostingAccepted(s: System, c: nat, group: Group, eligible: bool)
    requires SafeInv(s) && c < |s.calls| && s.calls[c].stage == StageFor(group) && Moves(s.calls[c], group) != []
    requires s.calls[c].order < |s.db.orders| && s.db.orders[s.calls[c].order].status == Ready
    ensures var call := s.calls[c];
      var key := PostingKey(s.db.orders[call.order].documentNo, group);
      PostOf(s, c, group, eligible).Ok? <==>
        && DocumentKey(group, key) in s.db.documents
        && if key in s.db.postings
           then s.db.postings[key].order == call.order && s.db.postings[key].group == group
             && s.db.postings[key].details == DetailsFor(call.details, group)
           else eligible && key !in s.db.foreign
  {
    var call := s.calls[c];
    assert CallOk(s.db, call);
    if !GroupPosted(s.db, call.order, group) { PlanFits(s, call.order, group); }
    FittingPosted(s.db, call.order, group, DetailsFor(call.details, group), eligible);
  }

  /** A committed cancel: the order is CANCELLED, and documents, postings, calls and stock are as before. */
  lemma CancelEffect(s: System, o: Id, v: nat)
    requires Inv(s) && Cancel(s.db, o, v, true).Ok?
    ensures var t := Next(s, CancelOrder(o, v, true));
      && Inv(t) && t.db.orders[o].status == Cancelled && t.db.orders[o].documentNo == s.db.orders[o].documentNo
      && t.db.documents == s.db.documents && t.db.postings == s.db.postings && t.db.onHand == s.db.onHand
      && t.db.foreign == s.db.foreign && t.calls == s.calls && o < |t.db.orders|
      && s.db.orders[o].status !in {Fulfilled, Cancelled}
  {
    StepKeeps(s, CancelOrder(o, v, true));
  }

  /** An open posting whose plan fits the stock is accepted. */
  lemma OpenAccepted(db: Database, o: Id, group: Group, plan: seq<Movement>, details: Id)
    requires PostingsOk(db) && o < |db.orders| && Open(db, o, group) && Withdraw(db.onHand, plan).Some?
    ensures Post(db, PostingKey(db.orders[o].documentNo, group), Posting(group, o, plan, details), true).Ok?
  {
  }

  /** A cancelled order whose call is still allowed to post: that posting makes the state unsafe. */
  lemma PostAfterCancel(t: System, o: Id, c: nat, group: Group)
    requires Inv(t) && o < |t.db.orders| && t.db.orders[o].status == Cancelled
    requires c < |t.calls| && t.calls[c].order == o && t.calls[c].stage == StageFor(group)
    requires Moves(t.calls[c], group) != [] && Open(t.db, o, group)
    requires Withdraw(t.db.onHand, Moves(t.calls[c], group)).Some?
    ensures !NeverPostedAndReleased(PostStep(t, c, group, true, true).db)
  {
    OpenAccepted(t.db, o, group, Moves(t.calls[c], group), DetailsFor(t.calls[c].details, group));
    PostKeeps(t, c, group, true, true);
    AcceptedIsPosted(t, c, group);
    PostedThenCancelled(PostStep(t, c, group, true, true).db, o, group);
  }

  lemma AcceptedIsPosted(t: System, c: nat, group: Group)
    requires Inv(t) && c < |t.calls| && t.calls[c].stage == StageFor(group) && Moves(t.calls[c], group) != []
    requires PostOf(t, c, group, true).Ok?
    ensures var db' := PostStep(t, c, group, true, true).db;
      && t.calls[c].order < |db'.orders| && db'.orders == t.db.orders
      && GroupPosted(db', t.calls[c].order, group)
  {
    var db' := AcceptedPosting(t, c, group, true);
  }

  lemma UnsafeAfterOne(t: System, o: Id, c: nat, group: Group)
    requires Inv(t) && o < |t.db.orders| && t.db.orders[o].status == Cancelled
    requires c < |t.calls| && t.calls[c].order == o && t.calls[c].stage == StageFor(group)
    requires Moves(t.calls[c], group) != [] && Open(t.db, o, group)
    requires Withdraw(t.db.onHand, Moves(t.calls[c], group)).Some?
    ensures Calm(t, [PostGroup(c, group, true, true)]) && !Safe(Run(t, [PostGroup(c, group, true, true)]).db)
  {
    PostAfterCancel(t, o, c, group);
    RunOne(t, c, group);
  }

  lemma MovedOn(t: System, c: nat)
    requires c < |t.calls| && t.calls[c].stage == BeforeGeneral && t.calls[c].general == []
    ensures PostStep(t, c, General, true, true) == AtStage(t, c, BeforeJob)
  {
  }

  /** With nothing to post in the general group, the call moves on and posts its job output. */
  lemma UnsafeAfterTwo(t: System, o: Id, c: nat)
    requires Inv(t) && o < |t.db.orders| && t.db.orders[o].status == Cancelled
    requires c < |t.calls| && t.calls[c].order == o && t.calls[c].stage == BeforeGeneral
    requires t.calls[c].general == [] && t.calls[c].job != [] && Open(t.db, o, JobOutput)
    requires Withdraw(t.db.onHand, t.calls[c].job).Some?
    ensures var steps := [PostGroup(c, General, true, true), PostGroup(c, JobOutput, true, true)];
      Calm(t, steps) && !Safe(Run(t, steps).db)
  {
    RunTwo(t, c);
    PostKeeps(t, c, General, true, true);
    MovedOn(t, c);
    PostAfterCancel(PostStep(t, c, General, true, true), o, c, JobOutput);
  }

  /** The steps that turn a hasty cancel into a loss. */
  lemma HastyPost(t: System, o: Id, c: nat) returns (steps: seq<Step>)
    requires Inv(t) && o < |t.db.orders| && t.db.orders[o].status == Cancelled
    requires c < |t.calls| && t.calls[c].order == o && NextGroup(t.calls[c]).Some?
    requires Open(t.db, o, NextGroup(t.calls[c]).value)
    requires Withdraw(t.db.onHand, Moves(t.calls[c], NextGroup(t.calls[c]).value)).Some?
    ensures AllPossible(steps) && Calm(t, steps) && !Safe(Run(t, steps).db)
  {
    var group := NextGroup(t.calls[c]).value;
    if t.calls[c].stage == StageFor(group) {
      steps := [PostGroup(c, group, true, true)];
      UnsafeAfterOne(t, o, c, group);
    } else {
      steps := [PostGroup(c, General, true, true), PostGroup(c, JobOutput, true, true)];
      UnsafeAfterTwo(t, o, c);
    }
  }

  /** A call about to post for the order it will find cancelled. */
  lemma HastyCall(s: System, o: Id, v: nat, c: nat) returns (steps: seq<Step>)
    requires SafeInv(s) && Cancel(s.db, o, v, true).Ok? && o < |s.db.orders| &&
      s.db.orders[o].status !in {Fulfilled, Cancelled}
    requires c < |s.calls| && AboutToPost(s.db, o, s.calls[c]) && !GroupPosted(s.db, o, NextGroup(s.calls[c]).value)
    ensures var t := Next(s, CancelOrder(o, v, true));
      AllPossible(steps) && Calm(t, steps) && !Safe(Run(t, steps).db)
  {
    CancelEffect(s, o, v);
    HastyFits(s, o, c);
    steps := HastyPost(Next(s, CancelOrder(o, v, true)), o, c);
  }

  /** What the call is about to post fits the stock. */
  lemma HastyFits(s: System, o: Id, c: nat)
    requires SafeInv(s) && o < |s.db.orders| && s.db.orders[o].status !in {Fulfilled, Cancelled}
    requires c < |s.calls| && AboutToPost(s.db, o, s.calls[c]) && !GroupPosted(s.db, o, NextGroup(s.calls[c]).value)
    ensures Withdraw(s.db.onHand, Moves(s.calls[c], NextGroup(s.calls[c]).value)).Some?
  {
    assert CallOk(s.db, s.calls[c]);
    PlanFits(s, o, NextGroup(s.calls[c]).value);
  }

  lemma AlreadyPosted(s: System, o: Id, v: nat, group: Group)
    requires SafeInv(s) && Cancel(s.db, o, v, true).Ok? && GroupPosted(s.db, o, group)
    ensures !Safe(Next(s, CancelOrder(o, v, true)).db)
  {
    CancelEffect(s, o, v);
    PostedThenCancelled(Next(s, CancelOrder(o, v, true)).db, o, group);
  }

  lemma HastyCancel(s: System, o: Id, v: nat) returns (steps: seq<Step>)
    requires SafeInv(s) && Cancel(s.db, o, v, true).Ok? && !Quiet(s, o)
    ensures var t := Next(s, CancelOrder(o, v, true));
      AllPossible(steps) && Calm(t, steps) && !Safe(Run(t, steps).db)
  {
    if GroupPosted(s.db, o, General) || GroupPosted(s.db, o, JobOutput) {
      steps := [];
      AlreadyPosted(s, o, v, if GroupPosted(s.db, o, General) then General else JobOutput);
    } else {
      CancelEffect(s, o, v);
      var c :| 0 <= c < |s.calls| && AboutToPost(s.db, o, s.calls[c]);
      steps := HastyCall(s, o, v, c);
    }
  }

  lemma CancelAllowsLoss(s: System, o: Id, v: nat)
    requires SafeInv(s) && Cancel(s.db, o, v, true).Ok? && !Quiet(s, o)
    ensures var t := Next(s, CancelOrder(o, v, true));
      exists steps :: AllPossible(steps) && Calm(t, steps) && !Safe(Run(t, steps).db)
  {
    var steps := HastyCancel(s, o, v);
  }

  /**
   * Cancel is safe exactly when it is quiet: in a safe state, every continuation after a committed
   * cancel stays safe if and only if nothing of the order has been posted and no call is about to
   * post for it.
   */
  lemma CancelSafeIffQuiet(s: System, o: Id, v: nat)
    requires SafeInv(s) && Cancel(s.db, o, v, true).Ok?
    ensures var t := Next(s, CancelOrder(o, v, true));
      Quiet(s, o) <==> forall steps :: AllPossible(steps) && Calm(t, steps) ==> Safe(Run(t, steps).db)
  {
    var t := Next(s, CancelOrder(o, v, true));
    if Quiet(s, o) {
      SafeStep(s, CancelOrder(o, v, true));
      forall steps | AllPossible(steps) && Calm(t, steps) ensures Safe(Run(t, steps).db) {
        SafeFrom(t, steps);
        SafeInvIsSafe(Run(t, steps));
      }
    } else {
      CancelAllowsLoss(s, o, v);
    }
  }

  /** What a caller can look up: with no document filed for the order, its cancel is safe whatever follows. */
  lemma CancelSafeWithoutDocuments(s: System, o: Id, v: nat, steps: seq<Step>)
    requires SafeInv(s) && Cancel(s.db, o, v, true).Ok? && NoDocuments(s.db, o)
    requires var t := Next(s, CancelOrder(o, v, true)); AllPossible(steps) && Calm(t, steps)
    ensures Safe(Run(Next(s, CancelOrder(o, v, true)), steps).db)
  {
    NoDocumentsIsQuiet(s, o);
    CancelSafeIffQuiet(s, o, v);
  }

  // ---------------------------------------------------------------------------
  // A run that overdraws

  const CAKE := Line(0, 5, StockedOutput)

  function Row(order: Id, status: AllocationStatus): Allocation { Allocation(order, 0, SHELF, 5, status) }

  function Cake(documentNo: string, status: Status, version: nat): Order { Filed(documentNo, CAKE, status, version) }

  function Initial(): System { Start(map[SHELF := 5]) }

  /** Five on hand, two orders of five: the first is READY and its fulfil call has prepared. */
  function Overtaken(orders: seq<Order>, rows: seq<Allocation>): System {
    var s := Initial();
    s.(db := s.db.(orders := orders, allocations := rows, documents := map[DocumentKey(General, "A") := Pending]),
       calls := [Call(0, 5, [Movement(0, SHELF, 5)], [], COSTS, BeforeGeneral)])
  }

  lemma CancelCake()
    ensures Next(Overtaken([Cake("A", Ready, 5), Cake("B", Approved, 3)], [Row(0, Active)]), CancelOrder(0, 5, true))
      == Overtaken([Cake("A", Cancelled, 6), Cake("B", Approved, 3)], [Row(0, Released)])
  {
  }

  lemma AllocateShelf(orders: seq<Order>, rows: seq<Allocation>, o: Id, documentNo: string)
    requires o < |orders| && orders[o] == Cake(documentNo, Approved, 3)
    requires Reserved(rows, SHELF) == 0 && NoRows(rows, o, 0)
    ensures Next(Overtaken(orders, rows), AllocateOrder(o, 3, SHELF_VIEW))
      == Overtaken(orders[o := Cake(documentNo, Allocated, 4)], rows + [Row(o, Active)])
  {
    ShelfPick(map[SHELF := 5], rows, o, CAKE, SHELF_VIEW);
    AllocateWith(Overtaken(orders, rows), o, 3, SHELF_VIEW, rows + [Row(o, Active)]);
  }

  lemma AllocateReleased()
    ensures Next(Overtaken([Cake("A", Cancelled, 6), Cake("B", Approved, 3)], [Row(0, Released)]),
      AllocateOrder(1, 3, SHELF_VIEW))
      == Overtaken([Cake("A", Cancelled, 6), Cake("B", Allocated, 4)], [Row(0, Released), Row(1, Active)])
  {
    var orders, rows := [Cake("A", Cancelled, 6), Cake("B", Approved, 3)], [Row(0, Released)];
    assert rows[..0] == [] && Reserved(rows, SHELF) == 0;
    AllocateShelf(orders, rows, 1, "B");
    assert orders[1 := Cake("B", Allocated, 4)] == [Cake("A", Cancelled, 6), Cake("B", Allocated, 4)];
    assert rows + [Row(1, Active)] == [Row(0, Released), Row(1, Active)];
  }

  lemma PostReleased()
    ensures var db :=
      Next(Overtaken([Cake("A", Cancelled, 6), Cake("B", Allocated, 4)], [Row(0, Released), Row(1, Active)]),
                           PostGroup(0, General, true, true)).db;
      && db.onHand == map[SHELF := 0]
      && db.orders == [Cake("A", Cancelled, 6), Cake("B", Allocated, 4)]
      && db.allocations == [Row(0, Released), Row(1, Active)]
      && db.postings == map["A" := Posting(General, 0, [Movement(0, SHELF, 5)], 0)]
  {
    var plan := [Movement(0, SHELF, 5)];
    var shelf: map<Key, int> := map[SHELF := 5];
    assert plan[..0] == [] && Withdraw(shelf, []) == Some(shelf);
    assert shelf[SHELF := 0] == map[SHELF := 0];
    assert Withdraw(shelf, plan) == Some(shelf[SHELF := 0]);
  }

  function FirstReady(): seq<Step> { Approval("A", CAKE, 0) + Preparation(0, SHELF_VIEW) }

  function RaceSteps(): seq<Step> {
    FirstReady() + Approval("B", CAKE, 1)
    + [CancelOrder(0, 5, true)] + [AllocateOrder(1, 3, SHELF_VIEW)] + [PostGroup(0, General, true, true)]
  }

  lemma FirstReadyRun()
    ensures Run(Initial(), FirstReady()) == Overtaken([Cake("A", Ready, 5)], [Row(0, Active)])
  {
    var s, p := Initial(), Approval("A", CAKE, 0);
    assert [] + p == p;
    ApprovedOrder(s, [], "A", CAKE);
    PreparedOrder(s, p, s, "A", CAKE, SHELF_VIEW);
    FirstPrepared();
  }

  lemma FirstPrepared()
    ensures ReadyToPost(Initial(), "A", CAKE) == Overtaken([Cake("A", Ready, 5)], [Row(0, Active)])
  {
    var orders, rows: seq<Allocation> := [Cake("A", Ready, 5)], [Row(0, Active)];
    var calls := [Call(0, 5, [Movement(0, SHELF, 5)], [], COSTS, BeforeGeneral)];
    assert [] + orders == orders && [] + rows == rows && [] + calls == calls;
  }

  lemma RaceRun()
    ensures Run(Initial(), RaceSteps()) ==
      Next(Overtaken([Cake("A", Cancelled, 6), Cake("B", Allocated, 4)], [Row(0, Released), Row(1, Active)]),
           PostGroup(0, General, true, true))
  {
    var s := Initial();
    FirstReadyRun();
    ApprovedOrder(s, FirstReady(), "B", CAKE);
    var p := FirstReady() + Approval("B", CAKE, 1);
    assert Run(s, p) == Overtaken([Cake("A", Ready, 5), Cake("B", Approved, 3)], [Row(0, Active)]);
    CancelCake();
    RunLast(s, p, CancelOrder(0, 5, true));
    AllocateReleased();
    RunLast(s, p + [CancelOrder(0, 5, true)], AllocateOrder(1, 3, SHELF_VIEW));
    RunLast(s, p + [CancelOrder(0, 5, true)] + [AllocateOrder(1, 3, SHELF_VIEW)], PostGroup(0, General, true, true));
  }

  /**
   * Why the hypothesis is needed: the first order is cancelled after its prepare, the second
   * reserves the stock just released, and the first call's posting then takes it. Five units are
   * still reserved and not posted, with none on hand.
   */
  lemma CancelOvertakesFulfil()
    ensures var db := Run(Initial(), RaceSteps()).db;
      && SHELF in db.onHand && db.onHand[SHELF] == 0 && Outstanding(db, SHELF) == 5 && !Backed(db)
      && |db.orders| == 2 && db.orders[0].status == Cancelled && GroupPosted(db, 0, General)
  {
    RaceRun();
    PostReleased();
    var db := Run(Initial(), RaceSteps()).db;
    var w := OutstandingWeights(db, SHELF);
    assert w[0] == 0 && w[1] == 5;
    assert w == [0, 5] && w[..1] == [0] && w[..1][..0] == [];
    assert Total(w) == Total(w[..1]) + 5;
  }
}
