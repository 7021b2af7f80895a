/**
 * Posting keys that somebody else has taken. Idempotency keys are unique across modules, and an order's
 * keys are its number and its number plus ":JOBOUT": another module may have posted under one of them,
 * and so may the other group of an order whose number differs by that suffix. Whoever posts first keeps
 * the key, and the order can never be fulfilled.
 */
module KeyClash {
  import opened Common
  import opened Fefo
  import opened Orders
  import opened OrderFacts
  import opened AllocationOutcome
  import opened FulfilmentProtocol
  import opened FulfilmentInvariant
  import opened FulfilmentTheorems
  import opened StockSafety
  import opened OrderRuns

  const SUFFIX := ":JOBOUT"

  /** The key of the order's group has been taken by another order or by another module. */
  predicate Blocked(db: Database, o: Id, group: Group)
    requires o < |db.orders|
  {
    var key := PostingKey(db.orders[o].documentNo, group);
    key in db.foreign || (key in db.postings && db.postings[key].order != o)
  }

  /** No key is both ours and another module's. */
  ghost predicate KeysApart(db: Database) { forall key :: key in db.foreign ==> key !in db.postings }

  lemma PostApart(s: System, c: nat, group: Group, eligible: bool, acknowledged: bool)
    requires KeysApart(s.db)
    ensures KeysApart(PostStep(s, c, group, eligible, acknowledged).db)
    ensures PostStep(s, c, group, eligible, acknowledged).db.foreign == s.db.foreign
  {
  }

  lemma ApartStep(s: System, step: Step)
    requires KeysApart(s.db)
    ensures KeysApart(Next(s, step).db) && s.db.foreign <= Next(s, step).db.foreign
  {
    if step.PostGroup? {
      PostApart(s, step.call, step.group, step.eligible, step.acknowledged);
    } else if step.FinishFulfil? {
      FinishFrame(s, step.call);
    } else if TableStep(step) {
      TableStepFrame(s, step);
      ForeignStep(s, step);
    }
  }

  lemma ForeignStep(s: System, step: Step)
    requires TableStep(step) && KeysApart(s.db)
    ensures KeysApart(Next(s, step).db)
  {
    TableStepFrame(s, step);
    if !step.PostElsewhere? { ForeignKept(s, step); }
  }

  lemma ForeignKept(s: System, step: Step)
    requires TableStep(step) && !step.PostElsewhere?
    ensures Next(s, step).db.foreign == s.db.foreign
  {
  }

  lemma {:induction false} ApartFrom(s: System, steps: seq<Step>)
    requires KeysApart(s.db)
    ensures KeysApart(Run(s, steps).db) && s.db.foreign <= Run(s, steps).db.foreign
  {
    if steps != [] {
      var n := |steps| - 1;
      ApartFrom(s, steps[..n]);
      ApartStep(Run(s, steps[..n]), steps[n]);
    }
  }

  /** A key is only ever taken by its own group, or by the order whose number differs by the suffix. */
  lemma TakenBy(db: Database, o: Id, group: Group)
    requires PostingsOk(db) && o < |db.orders| && PostingKey(db.orders[o].documentNo, group) in db.postings
    ensures var taken := db.postings[PostingKey(db.orders[o].documentNo, group)];
      && taken.order < |db.orders|
      && ((taken.order == o && taken.group == group)
          || (taken.order != o && group == General && taken.group == JobOutput
              && db.orders[o].documentNo == db.orders[taken.order].documentNo + SUFFIX)
          || (taken.order != o && group == JobOutput && taken.group == General
              && db.orders[taken.order].documentNo == db.orders[o].documentNo + SUFFIX)
          || (taken.order != o && taken.group == group && db.orders[taken.order].documentNo == db.orders[o].documentNo))
  {
    var key := PostingKey(db.orders[o].documentNo, group);
    assert PostingOk(db, key);
    KeyCollision(db.orders[db.postings[key].order].documentNo, db.postings[key].group, db.orders[o].documentNo, group);
  }

  /** Without a namesake, and with no other module on its key, a group is not blocked. */
  lemma NotBlocked(db: Database, o: Id, group: Group)
    requires OrdersOk(db) && PostingsOk(db) && o < |db.orders|
    requires PostingKey(db.orders[o].documentNo, group) !in db.foreign
    requires forall p :: 0 <= p < |db.orders| && p != o ==>
      && (group == General ==> db.orders[o].documentNo != db.orders[p].documentNo + SUFFIX)
      && (group == JobOutput ==> db.orders[p].documentNo != db.orders[o].documentNo + SUFFIX)
    ensures !Blocked(db, o, group)
  {
    if Blocked(db, o, group) {
      TakenBy(db, o, group);
      assert false;
    }
  }

  // ---------------------------------------------------------------------------
  // A blocked order is never fulfilled

  /** Postings are never rewritten or removed. */
  ghost predicate PostingsStay(a: Database, b: Database) {
    forall key :: key in a.postings ==> key in b.postings && b.postings[key] == a.postings[key]
  }

  lemma PostStays(s: System, c: nat, group: Group, eligible: bool, acknowledged: bool)
    ensures PostingsStay(s.db, PostStep(s, c, group, eligible, acknowledged).db)
  {
  }

  lemma StepStays(s: System, step: Step)
    ensures PostingsStay(s.db, Next(s, step).db)
  {
    if step.PostGroup? {
      PostStays(s, step.call, step.group, step.eligible, step.acknowledged);
    } else if step.FinishFulfil? {
      FinishFrame(s, step.call);
    } else if TableStep(step) {
      TableStepFrame(s, step);
    }
  }

  lemma PositiveDemand(line: Line)
    requires ValidLine(line)
    ensures Demand(line, None) > 0
  {
    if line.owner.ComponentSnapshot? {
      var n := |line.owner.components| - 1;
      assert line.owner.components[n] in line.owner.components;
    }
  }

  /** A covered line has a row, so its group has something to post. */
  lemma CoveredPlans(db: Database, o: Id, ell: nat)
    requires o < |db.orders| && ell < |db.orders[o].lines| && ValidLine(db.orders[o].lines[ell])
    requires Covers(db.allocations, o, ell, db.orders[o].lines[ell])
    ensures FullPlan(db.orders, db.allocations, o, GroupOf(db.orders[o].lines[ell])) != []
  {
    PositiveDemand(db.orders[o].lines[ell]);
    if NoRows(db.allocations, o, ell) {
      RowsTotalNone(db.allocations, o, ell, None);
      assert false;
    }
    var i :| 0 <= i < |db.allocations| && db.allocations[i].order == o && db.allocations[i].line == ell;
    PlanCarries(db.orders, db.allocations, o, GroupOf(db.orders[o].lines[ell]), i);
  }

  lemma BlockedNotFulfilled(db: Database, o: Id, ell: nat)
    requires KeysApart(db) && OrdersOk(db) && CoverageOk(db) && FulfilledPosted(db) && o < |db.orders| &&
      ell < |db.orders[o].lines|
    requires Blocked(db, o, GroupOf(db.orders[o].lines[ell]))
    ensures db.orders[o].status != Fulfilled
  {
    if db.orders[o].status == Fulfilled {
      assert LineOk(db, o, ell);
      CoveredPlans(db, o, ell);
      FulfilledGroups(db, o, GroupOf(db.orders[o].lines[ell]));
      assert false;
    }
  }

  /** Number, and lines once submitted, are fixed. */
  ghost predicate SameOrder(a: Database, b: Database, o: Id)
    requires o < |a.orders|
  {
    && o < |b.orders| && b.orders[o].documentNo == a.orders[o].documentNo
    && (a.orders[o].status != Draft ==> b.orders[o].status != Draft && b.orders[o].lines == a.orders[o].lines)
  }

  lemma {:induction false} OrderStays(s: System, steps: seq<Step>, o: Id)
    requires Inv(s) && AllPossible(steps) && o < |s.db.orders|
    ensures Inv(Run(s, steps)) && PostingsStay(s.db, Run(s, steps).db) && SameOrder(s.db, Run(s, steps).db, o)
  {
    if steps != [] {
      var n := |steps| - 1;
      OrderStays(s, steps[..n], o);
      StepKeeps(Run(s, steps[..n]), steps[n]);
      StepStays(Run(s, steps[..n]), steps[n]);
      OrderStep(Run(s, steps[..n]), steps[n], o);
    }
  }

  /** Once the key of one of its lines' groups is somebody else's, an order is not fulfilled in any continuation. */
  lemma NeverFulfilled(s: System, steps: seq<Step>, o: Id, ell: nat)
    requires Inv(s) && KeysApart(s.db) && AllPossible(steps) && o < |s.db.orders| && s.db.orders[o].status != Draft &&
      ell < |s.db.orders[o].lines|
    requires Blocked(s.db, o, GroupOf(s.db.orders[o].lines[ell]))
    ensures o < |Run(s, steps).db.orders| && Run(s, steps).db.orders[o].status != Fulfilled
  {
    OrderStays(s, steps, o);
    ApartFrom(s, steps);
    BlockedNotFulfilled(Run(s, steps).db, o, ell);
  }

  // ---------------------------------------------------------------------------
  // A run that blocks an order

  const OUTPUT := Line(0, 5, JobOrder(0))
  const STOCKED := Line(0, 5, StockedOutput)
  const VIEW := StockView(map[Outlet(0) := [SHELF], JobWarehouse(0, 0) := [SHELF]], {0}, {0})

  function ClashStart(): System { Start(map[SHELF := 15]) }

  /** Order "A" up to the posting of its job output. */
  function FirstSteps(): seq<Step> {
    Approval("A", OUTPUT, 0) + Preparation(0, VIEW) + [PostGroup(0, General, true, true)] +
      [PostGroup(0, JobOutput, true, true)]
  }

  /** Then order "A:JOBOUT" up to its open fulfil call. */
  function ClashSteps(): seq<Step> { FirstSteps() + Approval("A:JOBOUT", STOCKED, 1) + Preparation(1, VIEW) }

  /** After the posting: ten on hand, five of them posted for but still reserved. */
  function FirstPosted(): System {
    var s := ReadyToPost(ClashStart(), "A", OUTPUT);
    s.(db := s.db.(onHand := map[SHELF := 10],
                   postings := map["A:JOBOUT" := Posting(JobOutput, 0, [Movement(0, SHELF, 5)], 0)],
                   documents := map[DocumentKey(JobOutput, "A:JOBOUT") := Posted]),
       calls := [s.calls[0].(stage := BeforeFinalize)])
  }

  lemma OutputPosts()
    ensures var s := ReadyToPost(ClashStart(), "A", OUTPUT);
      PostStep(PostStep(s, 0, General, true, true), 0, JobOutput, true, true) == FirstPosted()
  {
    var s := ReadyToPost(ClashStart(), "A", OUTPUT);
    assert PostingKey("A", JobOutput) == "A:JOBOUT";
    assert s.calls == [Call(0, 5, [], [Movement(0, SHELF, 5)], COSTS, BeforeGeneral)];
    var document := DocumentKey(JobOutput, "A:JOBOUT");
    assert s.db.documents == map[document := Pending] && s.db.orders[0].documentNo == "A";
    var moved := AtStage(s, 0, BeforeJob);
    assert PostStep(s, 0, General, true, true) == moved;
    var plan, shelf: map<Key, int> := [Movement(0, SHELF, 5)], map[SHELF := 15];
    assert plan[..0] == [] && Withdraw(shelf, []) == Some(shelf);
    assert shelf[SHELF := 10] == map[SHELF := 10];
    assert Withdraw(shelf, plan) == Some(map[SHELF := 10]);
    var posting := Posting(JobOutput, 0, plan, 0);
    assert s.db.documents[document := Posted] == FirstPosted().db.documents;
    assert s.db.postings["A:JOBOUT" := posting] == FirstPosted().db.postings;
    assert PostOf(moved, 0, JobOutput, true) == Post(s.db, "A:JOBOUT", posting, true);
    assert PostOf(moved, 0, JobOutput, true) == Ok(FirstPosted().db);
  }

  lemma FirstRun()
    ensures Run(ClashStart(), FirstSteps()) == FirstPosted()
  {
    var s, p := ClashStart(), Approval("A", OUTPUT, 0);
    assert [] + p == p;
    ApprovedOrder(s, [], "A", OUTPUT);
    PreparedOrder(s, p, s, "A", OUTPUT, VIEW);
    var q := p + Preparation(0, VIEW);
    var ready := ReadyToPost(s, "A", OUTPUT);
    OutputRun(s, q, ready, PostStep(ready, 0, General, true, true));
    OutputPosts();
  }

  lemma RunPost(s: System, steps: seq<Step>, at: System, group: Group)
    requires Run(s, steps) == at
    ensures Run(s, steps + [PostGroup(0, group, true, true)]) == PostStep(at, 0, group, true, true)
  {
    RunLast(s, steps, PostGroup(0, group, true, true));
    assert Next(at, PostGroup(0, group, true, true)) == PostStep(at, 0, group, true, true);
  }

  lemma OutputRun(s: System, steps: seq<Step>, at: System, moved: System)
    requires Run(s, steps) == at && PostStep(at, 0, General, true, true) == moved
    ensures Run(s, steps + [PostGroup(0, General, true, true)] + [PostGroup(0, JobOutput, true, true)])
      == PostStep(moved, 0, JobOutput, true, true)
  {
    RunPost(s, steps, at, General);
    RunPost(s, steps + [PostGroup(0, General, true, true)], moved, JobOutput);
  }

  lemma ShelfLeft()
    ensures FirstPosted().db.allocations == [RowOf(0, OUTPUT)] && Reserved(FirstPosted().db.allocations, SHELF) == 5
    ensures |FirstPosted().db.orders| == 1 && FirstPosted().db.orders[0] == Filed("A", OUTPUT, Ready, 5)
  {
    var rows := [RowOf(0, OUTPUT)];
    assert [] + rows == rows && rows[..0] == [];
  }

  lemma ClashRun()
    ensures Run(ClashStart(), ClashSteps()) == ReadyToPost(FirstPosted(), "A:JOBOUT", STOCKED)
  {
    FirstRun();
    ShelfLeft();
    ApprovedOrder(ClashStart(), FirstSteps(), "A:JOBOUT", STOCKED);
    PreparedOrder(ClashStart(), FirstSteps() + Approval("A:JOBOUT", STOCKED, 1), FirstPosted(), "A:JOBOUT", STOCKED,
      VIEW);
  }

  lemma PossibleTogether(a: seq<Step>, b: seq<Step>)
    requires AllPossible(a) && AllPossible(b)
    ensures AllPossible(a + b)
  {
  }

  lemma PiecesPossible(documentNo: string, line: Line, o: Id)
    ensures AllPossible(Approval(documentNo, line, o)) && AllPossible(Preparation(o, VIEW))
    ensures AllPossible([PostGroup(o, General, true, true)]) && AllPossible([PostGroup(o, JobOutput, true, true)])
  {
    assert WellRead(VIEW);
  }

  lemma ClashPossible()
    ensures AllPossible(ClashSteps())
  {
    PiecesPossible("A", OUTPUT, 0);
    PiecesPossible("A:JOBOUT", STOCKED, 1);
    PossibleTogether(Approval("A", OUTPUT, 0), Preparation(0, VIEW));
    var p := Approval("A", OUTPUT, 0) + Preparation(0, VIEW);
    PossibleTogether(p, [PostGroup(0, General, true, true)]);
    PossibleTogether(p + [PostGroup(0, General, true, true)], [PostGroup(0, JobOutput, true, true)]);
    PossibleTogether(FirstSteps(), Approval("A:JOBOUT", STOCKED, 1));
    PossibleTogether(FirstSteps() + Approval("A:JOBOUT", STOCKED, 1), Preparation(1, VIEW));
  }

  /** The second order's call, in the state the run ends in. */
  lemma SecondRefused(eligible: bool)
    ensures var s := ReadyToPost(FirstPosted(), "A:JOBOUT", STOCKED);
      && |s.calls| == 2 && |s.db.orders| == 2 && s.db.orders[1] == Filed("A:JOBOUT", STOCKED, Ready, 5)
      && PostOf(s, 1, General, eligible) == Err(IdempotencyKeyReused)
      && Blocked(s.db, 1, General)
  {
    ShelfLeft();
    var s := ReadyToPost(FirstPosted(), "A:JOBOUT", STOCKED);
    assert s.calls[1] == Call(1, 5, [Movement(1, SHELF, 5)], [], COSTS, BeforeGeneral);
    assert s.db.orders[1].documentNo == "A:JOBOUT";
    assert DocumentKey(General, "A:JOBOUT") in s.db.documents;
    assert s.db.postings["A:JOBOUT"].order == 0;
  }

  /**
   * The documented promise that a retry will go through fails for such an order: it is READY, its
   * stock is reserved and its document in place, its posting is refused for ever, and no run that
   * follows fulfils it.
   */
  lemma SuffixedOrderStuck(eligible: bool, more: seq<Step>)
    requires AllPossible(more)
    ensures AllPossible(ClashSteps())
    ensures var s := Run(ClashStart(), ClashSteps());
      && |s.calls| == 2 && |s.db.orders| == 2 && s.db.orders[1].status == Ready
      && PostOf(s, 1, General, eligible) == Err(IdempotencyKeyReused)
      && 1 < |Run(s, more).db.orders| && Run(s, more).db.orders[1].status != Fulfilled
  {
    ClashPossible();
    ClashRun();
    SecondRefused(eligible);
    EveryRun(map[SHELF := 15], ClashSteps());
    ApartFrom(ClashStart(), ClashSteps());
    NeverFulfilled(ReadyToPost(FirstPosted(), "A:JOBOUT", STOCKED), more, 1, 0);
  }

  // ---------------------------------------------------------------------------
  // A run in which another module has the number

  /** A job order numbered "A" has posted; then customer order "A" gets as far as its open fulfil call. */
  function ForeignSteps(): seq<Step> { [PostElsewhere("A")] + Approval("A", STOCKED, 0) + Preparation(0, VIEW) }

  function Taken(): System { ClashStart().(db := ClashStart().db.(foreign := {"A"})) }

  lemma ForeignRun()
    ensures Run(ClashStart(), ForeignSteps()) == ReadyToPost(Taken(), "A", STOCKED)
  {
    var s: System := ClashStart();
    var p: seq<Step> := [PostElsewhere("A")];
    assert p[..0] == [] && Run(s, p) == Next(s, PostElsewhere("A"));
    assert s.db.foreign + {"A"} == {"A"};
    ApprovedOrder(s, p, "A", STOCKED);
    PreparedOrder(s, p + Approval("A", STOCKED, 0), Taken(), "A", STOCKED, VIEW);
  }

  lemma ForeignPossible()
    ensures AllPossible(ForeignSteps())
  {
    PiecesPossible("A", STOCKED, 0);
    PossibleTogether([PostElsewhere("A")], Approval("A", STOCKED, 0));
    PossibleTogether([PostElsewhere("A")] + Approval("A", STOCKED, 0), Preparation(0, VIEW));
  }

  lemma ForeignRefused(eligible: bool)
    ensures var s := ReadyToPost(Taken(), "A", STOCKED);
      && |s.calls| == 1 && |s.db.orders| == 1 && s.db.orders[0] == Filed("A", STOCKED, Ready, 5)
      && PostOf(s, 0, General, eligible) == Err(IdempotencyKeyReused)
      && Blocked(s.db, 0, General)
  {
    var s := ReadyToPost(Taken(), "A", STOCKED);
    assert s.calls[0] == Call(0, 5, [Movement(0, SHELF, 5)], [], COSTS, BeforeGeneral);
    assert s.db.orders[0].documentNo == "A" && PostingKey("A", General) == "A";
  }

  /** A customer order numbered like a job order that has posted is READY and refused for ever. */
  lemma NumberTakenElsewhere(eligible: bool, more: seq<Step>)
    requires AllPossible(more)
    ensures AllPossible(ForeignSteps())
    ensures var s := Run(ClashStart(), ForeignSteps());
      && |s.calls| == 1 && |s.db.orders| == 1 && s.db.orders[0].status == Ready
      && PostOf(s, 0, General, eligible) == Err(IdempotencyKeyReused)
      && 0 < |Run(s, more).db.orders| && Run(s, more).db.orders[0].status != Fulfilled
  {
    ForeignPossible();
    ForeignRun();
    ForeignRefused(eligible);
    EveryRun(map[SHELF := 15], ForeignSteps());
    ApartFrom(ClashStart(), ForeignSteps());
    NeverFulfilled(ReadyToPost(Taken(), "A", STOCKED), more, 0, 0);
  }
}
