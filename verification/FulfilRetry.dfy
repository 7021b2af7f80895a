/**
 * When a retry goes through. A READY order is fulfilled by one more call exactly when each key it needs
 * is free, or is its own under the details the call reads; and some continuation fulfils it exactly when
 * no key it needs is somebody else's.
 */
module FulfilRetry {
  import opened Common
  import opened Fefo
  import opened Orders
  import opened OrderFacts
  import opened AllocationOutcome
  import opened FulfilmentProtocol
  import opened FulfilmentInvariant
  import opened FulfilmentTheorems
  import opened StockSafety
  import opened CancelRace
  import opened OrderRuns
  import opened KeyClash

  /** The posting service would accept this group of the order, given an eligible plan. */
  predicate Acceptable(db: Database, o: Id, group: Group, details: Id)
    requires o < |db.orders|
  {
    var key := PostingKey(db.orders[o].documentNo, group);
    if key in db.postings
    then db.postings[key].order == o && db.postings[key].group == group && db.postings[key].details == details
    else key !in db.foreign
  }

  /** Every group of the order with something to post is acceptable. */
  ghost predicate AllAcceptable(db: Database, o: Id, details: Details)
    requires o < |db.orders|
  {
    forall g :: FullPlan(db.orders, db.allocations, o, g) != [] ==> Acceptable(db, o, g, DetailsFor(details, g))
  }

  /** One fulfil call from start to end, undisturbed and eligible. */
  function Retry(s: System, o: Id, details: Details): seq<Step>
    requires o < |s.db.orders|
  {
    var c := |s.calls|;
    [BeginFulfil(o, s.db.orders[o].version, details)] + [PostGroup(c, General, true, true)]
      + [PostGroup(c, JobOutput, true, true)] + [FinishFulfil(c)]
  }

  function RetryEnd(s: System, o: Id, details: Details): System
    requires o < |s.db.orders|
  {
    var c := |s.calls|;
    FinishStep(PostStep(PostStep(BeginStep(s, o, s.db.orders[o].version, details), c, General, true, true),
                        c, JobOutput, true, true), c)
  }

  lemma RunAt(s: System, steps: seq<Step>, at: System, step: Step, next: System)
    requires Run(s, steps) == at && Next(at, step) == next
    ensures Run(s, steps + [step]) == next
  {
    RunLast(s, steps, step);
  }

  lemma NextIsPost(s: System, c: nat, group: Group)
    ensures Next(s, PostGroup(c, group, true, true)) == PostStep(s, c, group, true, true)
  {
  }

  lemma NextIsBegin(s: System, o: Id, v: nat, details: Details)
    ensures Next(s, BeginFulfil(o, v, details)) == BeginStep(s, o, v, details)
  {
  }

  lemma FourSteps(s: System, a: Step, b: Step, c: Step, d: Step, t0: System, t1: System, t2: System, t3: System)
    requires Next(s, a) == t0 && Next(t0, b) == t1 && Next(t1, c) == t2 && Next(t2, d) == t3
    ensures Run(s, [a] + [b] + [c] + [d]) == t3
  {
    assert [] + [a] == [a] && Run(s, []) == s;
    RunAt(s, [], s, a, t0);
    RunAt(s, [a], t0, b, t1);
    RunAt(s, [a] + [b], t1, c, t2);
    RunAt(s, [a] + [b] + [c], t2, d, t3);
  }

  lemma RetryRun(s: System, o: Id, details: Details)
    requires o < |s.db.orders|
    ensures Run(s, Retry(s, o, details)) == RetryEnd(s, o, details) && AllPossible(Retry(s, o, details))
  {
    var c, v := |s.calls|, s.db.orders[o].version;
    var t0 := BeginStep(s, o, v, details);
    var t1 := PostStep(t0, c, General, true, true);
    var t2 := PostStep(t1, c, JobOutput, true, true);
    NextIsBegin(s, o, v, details);
    NextIsPost(t0, c, General);
    NextIsPost(t1, c, JobOutput);
    NextIsFinish(t2, FinishFulfil(c));
    FourSteps(s, BeginFulfil(o, v, details), PostGroup(c, General, true, true), PostGroup(c, JobOutput, true, true),
              FinishFulfil(c), t0, t1, t2, FinishStep(t2, c));
  }

  // ---------------------------------------------------------------------------
  // The four steps

  /** The call, at one of its stages, with its order still READY and its documents in place. */
  ghost predicate Underway(s: System, c: nat, o: Id, details: Details, stage: Stage) {
    && c < |s.calls| && o < |s.db.orders| && s.db.orders[o].status == Ready
    && s.calls[c].order == o && s.calls[c].details == details && s.calls[c].stage == stage
    && (forall g :: FullPlan(s.db.orders, s.db.allocations, o, g) != [] ==>
          DocumentKey(g, PostingKey(s.db.orders[o].documentNo, g)) in s.db.documents)
  }

  /** What later steps of the call look at has not changed. */
  ghost predicate SameFor(s: System, t: System, o: Id, g: Group)
    requires o < |s.db.orders|
  {
    && t.db.orders == s.db.orders && t.db.allocations == s.db.allocations && t.db.foreign == s.db.foreign
    && var key := PostingKey(s.db.orders[o].documentNo, g);
       (key in t.db.postings <==> key in s.db.postings)
       && (key in s.db.postings ==> t.db.postings[key] == s.db.postings[key])
  }

  lemma SomethingToPost(db: Database, o: Id) returns (g: Group)
    requires OrdersOk(db) && CoverageOk(db) && o < |db.orders| && db.orders[o].status == Ready
    ensures FullPlan(db.orders, db.allocations, o, g) != []
  {
    g := GroupOf(db.orders[o].lines[0]);
    assert db.orders[o].lines[0] in db.orders[o].lines;
    assert LineOk(db, o, 0);
    CoveredPlans(db, o, 0);
  }

  lemma BothPlansFull(db: Database, o: Id)
    requires RowsOk(db) && o < |db.orders| && db.orders[o].status == Ready
    ensures forall g :: Plan(db.orders, db.allocations, o, g) == FullPlan(db.orders, db.allocations, o, g)
  {
    forall i | 0 <= i < |db.allocations| && db.allocations[i].order == o ensures db.allocations[i].status == Active {
      assert RowOk(db, db.allocations[i]);
    }
    PlanIsFull(db.orders, db.allocations, o, General);
    PlanIsFull(db.orders, db.allocations, o, JobOutput);
    forall g ensures Plan(db.orders, db.allocations, o, g) == FullPlan(db.orders, db.allocations, o, g) {
      if g == General { } else { assert g == JobOutput; }
    }
  }

  lemma PrepareGoes(db: Database, o: Id)
    requires OrdersOk(db) && RowsOk(db) && CoverageOk(db) && o < |db.orders| && db.orders[o].status == Ready
    ensures var r := Prepare(db, o, db.orders[o].version);
      && r.Ok? && r.value.1.Planned?
      && r.value.0 == db.(documents := r.value.0.documents)
      && (forall g :: FullPlan(db.orders, db.allocations, o, g) != [] ==>
            DocumentKey(g, PostingKey(db.orders[o].documentNo, g)) in r.value.0.documents)
  {
    var g := SomethingToPost(db, o);
    BothPlansFull(db, o);
    assert g == General || g == JobOutput;
  }

  lemma SafeBegin(s: System, o: Id, v: nat, details: Details)
    requires SafeInv(s)
    ensures SafeInv(BeginStep(s, o, v, details))
  {
    SafeStep(s, BeginFulfil(o, v, details));
    NextIsBegin(s, o, v, details);
  }

  lemma SafePost(s: System, c: nat, group: Group)
    requires SafeInv(s)
    ensures SafeInv(PostStep(s, c, group, true, true))
  {
    SafeStep(s, PostGroup(c, group, true, true));
    NextIsPost(s, c, group);
  }

  lemma Begun(s: System, o: Id, details: Details)
    requires OrdersOk(s.db) && RowsOk(s.db) && CoverageOk(s.db) && o < |s.db.orders| && s.db.orders[o].status == Ready
    ensures var t := BeginStep(s, o, s.db.orders[o].version, details);
      Underway(t, |s.calls|, o, details, BeforeGeneral) && forall g :: SameFor(s, t, o, g)
  {
    PrepareGoes(s.db, o);
  }

  /** A posting that is accepted moves the call on; one that is refused changes nothing. */
  lemma PostTried(s: System, c: nat, o: Id, details: Details, group: Group)
    requires SafeInv(s) && Underway(s, c, o, details, StageFor(group))
    ensures var t := PostStep(s, c, group, true, true);
      if GroupGoes(s.db, o, group, details)
      then Underway(t, c, o, details, StageAfter(group)) && forall g :: g != group ==> SameFor(s, t, o, g)
      else t == s
  {
    assert CallOk(s.db, s.calls[c]);
    if FullPlan(s.db.orders, s.db.allocations, o, group) == [] {
      NothingPosted(s, c, o, details, group);
    } else {
      PostingAccepted(s, c, group, true);
      if PostOf(s, c, group, true).Ok? {
        AcceptedFor(s, c, o, group);
        MovedOn(s, c, o, details, group);
      }
    }
  }

  lemma NothingPosted(s: System, c: nat, o: Id, details: Details, group: Group)
    requires Underway(s, c, o, details, StageFor(group)) && Moves(s.calls[c], group) == []
    ensures var t := PostStep(s, c, group, true, true);
      Underway(t, c, o, details, StageAfter(group)) && forall g :: SameFor(s, t, o, g)
  {
  }

  lemma MovedOn(s: System, c: nat, o: Id, details: Details, group: Group)
    requires Underway(s, c, o, details, StageFor(group)) && Moves(s.calls[c], group) != [] &&
      PostOf(s, c, group, true).Ok?
    requires var db' := PostOf(s, c, group, true).value;
      && db'.orders == s.db.orders && db'.allocations == s.db.allocations && db'.foreign == s.db.foreign
      && s.db.documents.Keys <= db'.documents.Keys
      && forall g :: g != group ==> SameFor(s, s.(db := db'), o, g)
    ensures var t := PostStep(s, c, group, true, true);
      Underway(t, c, o, details, StageAfter(group)) && forall g :: g != group ==> SameFor(s, t, o, g)
  {
    var db' := PostOf(s, c, group, true).value;
    assert PostStep(s, c, group, true, true) == AtStage(s.(db := db'), c, StageAfter(group));
    forall g | FullPlan(s.db.orders, s.db.allocations, o, g) != []
      ensures DocumentKey(g, PostingKey(s.db.orders[o].documentNo, g)) in db'.documents
    {
      assert DocumentKey(g, PostingKey(s.db.orders[o].documentNo, g)) in s.db.documents.Keys;
    }
    forall g | g != group ensures SameFor(s, PostStep(s, c, group, true, true), o, g) {
      assert SameFor(s, s.(db := db'), o, g);
    }
  }

  lemma AcceptedFor(s: System, c: nat, o: Id, group: Group)
    requires c < |s.calls| && s.calls[c].order == o < |s.db.orders| && PostOf(s, c, group, true).Ok?
    ensures var db' := PostOf(s, c, group, true).value;
      && db'.orders == s.db.orders && db'.allocations == s.db.allocations && db'.foreign == s.db.foreign
      && s.db.documents.Keys <= db'.documents.Keys
      && forall g :: g != group ==> SameFor(s, s.(db := db'), o, g)
  {
    KeyCollision(s.db.orders[o].documentNo, General, s.db.orders[o].documentNo, JobOutput);
  }

  lemma Finishes(s: System, c: nat, o: Id, details: Details)
    requires Inv(s) && Underway(s, c, o, details, BeforeFinalize)
    ensures o < |FinishStep(s, c).db.orders| && FinishStep(s, c).db.orders[o].status == Fulfilled
  {
    assert CallOk(s.db, s.calls[c]);
    FinalizeExact(s.db, s.calls[c]);
  }

  lemma NotFinished(s: System, c: nat)
    requires c >= |s.calls| || s.calls[c].stage != BeforeFinalize
    ensures FinishStep(s, c) == s
  {
  }

  predicate GroupGoes(db: Database, o: Id, group: Group, details: Details)
    requires o < |db.orders|
  {
    FullPlan(db.orders, db.allocations, o, group) == [] || Acceptable(db, o, group, DetailsFor(details, group))
  }

  lemma SameGoes(s: System, t: System, o: Id, group: Group, details: Details)
    requires o < |s.db.orders| && SameFor(s, t, o, group)
    ensures GroupGoes(t.db, o, group, details) <==> GroupGoes(s.db, o, group, details)
  {
  }

  /** From the second posting on. */
  lemma LastSteps(s: System, c: nat, o: Id, details: Details)
    requires SafeInv(s) && Underway(s, c, o, details, BeforeJob)
    ensures var t := FinishStep(PostStep(s, c, JobOutput, true, true), c);
      o < |t.db.orders| && (t.db.orders[o].status == Fulfilled <==> GroupGoes(s.db, o, JobOutput, details))
  {
    PostTried(s, c, o, details, JobOutput);
    if GroupGoes(s.db, o, JobOutput, details) {
      SafePost(s, c, JobOutput);
      Finishes(PostStep(s, c, JobOutput, true, true), c, o, details);
    } else {
      NotFinished(s, c);
    }
  }

  /** A call that never got past its first posting does nothing more. */
  lemma NoMoreSteps(s: System, c: nat)
    requires c < |s.calls| && s.calls[c].stage == BeforeGeneral
    ensures FinishStep(PostStep(s, c, JobOutput, true, true), c) == s
  {
    NotFinished(s, c);
  }

  lemma FromFirst(s: System, c: nat, o: Id, details: Details)
    requires SafeInv(s) && Underway(s, c, o, details, BeforeGeneral)
    ensures var t := FinishStep(PostStep(PostStep(s, c, General, true, true), c, JobOutput, true, true), c);
      && o < |t.db.orders|
      && (t.db.orders[o].status == Fulfilled <==>
           GroupGoes(s.db, o, General, details) && GroupGoes(s.db, o, JobOutput, details))
  {
    PostTried(s, c, o, details, General);
    var t := PostStep(s, c, General, true, true);
    if GroupGoes(s.db, o, General, details) {
      SafePost(s, c, General);
      LastSteps(t, c, o, details);
      SameGoes(s, t, o, JobOutput, details);
    } else {
      NoMoreSteps(s, c);
    }
  }

  /**
   * A fulfil call on a READY order, with details as they are read now and plans eligible, fulfils the
   * order exactly when every group it has to post has a free key, or was posted with the same details.
   */
  lemma RetrySucceedsIff(s: System, o: Id, details: Details)
    requires SafeInv(s) && o < |s.db.orders| && s.db.orders[o].status == Ready
    ensures var t := Run(s, Retry(s, o, details));
      o < |t.db.orders| && (t.db.orders[o].status == Fulfilled <==> AllAcceptable(s.db, o, details))
  {
    var v := s.db.orders[o].version;
    var t := BeginStep(s, o, v, details);
    RetryRun(s, o, details);
    Begun(s, o, details);
    SafeBegin(s, o, v, details);
    FromFirst(t, |s.calls|, o, details);
    SameGoes(s, t, o, General, details);
    SameGoes(s, t, o, JobOutput, details);
    AcceptableSplit(s.db, o, details);
  }

  lemma AcceptableSplit(db: Database, o: Id, details: Details)
    requires o < |db.orders|
    ensures AllAcceptable(db, o, details) <==>
      GroupGoes(db, o, General, details) && GroupGoes(db, o, JobOutput, details)
  {
    if GroupGoes(db, o, General, details) && GroupGoes(db, o, JobOutput, details) {
      forall g | FullPlan(db.orders, db.allocations, o, g) != [] ensures Acceptable(db, o, g, DetailsFor(details, g)) {
        assert g == General || g == JobOutput;
      }
    }
  }

  // ---------------------------------------------------------------------------
  // Whether any continuation fulfils the order

  /** No key that the order needs is somebody else's. */
  ghost predicate Unblocked(db: Database, o: Id)
    requires o < |db.orders|
  {
    forall g :: FullPlan(db.orders, db.allocations, o, g) != [] ==> !Blocked(db, o, g)
  }

  /** The details its groups were posted with, where they were. */
  function OwnDetails(db: Database, o: Id): Details
    requires o < |db.orders|
  {
    var g, j := PostingKey(db.orders[o].documentNo, General), PostingKey(db.orders[o].documentNo, JobOutput);
    Details(if g in db.postings then db.postings[g].details else 0,
            if j in db.postings then db.postings[j].details else 0)
  }

  lemma UnblockedIsAcceptable(db: Database, o: Id)
    requires PostingsOk(db) && o < |db.orders| && Unblocked(db, o)
    ensures AllAcceptable(db, o, OwnDetails(db, o))
  {
    forall g | FullPlan(db.orders, db.allocations, o, g) != []
      ensures Acceptable(db, o, g, DetailsFor(OwnDetails(db, o), g))
    {
      assert !Blocked(db, o, g);
      if PostingKey(db.orders[o].documentNo, g) in db.postings { TakenBy(db, o, g); }
    }
  }

  /** A group with something to post has a line. */
  lemma LineOfGroup(db: Database, o: Id, g: Group) returns (ell: nat)
    requires o < |db.orders| && FullPlan(db.orders, db.allocations, o, g) != []
    ensures ell < |db.orders[o].lines| && GroupOf(db.orders[o].lines[ell]) == g
  {
    FullPlanEntry(db.orders, db.allocations, o, g, 0);
    ell := db.allocations[FullPlan(db.orders, db.allocations, o, g)[0].allocation].line;
  }

  /**
   * From a safe state, some continuation fulfils a READY order exactly when none of the keys it needs
   * has been taken by another order or by another module.
   */
  lemma FulfillableIff(s: System, o: Id)
    requires SafeInv(s) && KeysApart(s.db) && o < |s.db.orders| && s.db.orders[o].status == Ready
    ensures (exists steps :: AllPossible(steps) && FulfilledAfter(s, steps, o)) <==> Unblocked(s.db, o)
  {
    if Unblocked(s.db, o) {
      var details := OwnDetails(s.db, o);
      UnblockedIsAcceptable(s.db, o);
      RetrySucceedsIff(s, o, details);
      RetryRun(s, o, details);
      assert FulfilledAfter(s, Retry(s, o, details), o);
    } else {
      var g :| FullPlan(s.db.orders, s.db.allocations, o, g) != [] && Blocked(s.db, o, g);
      var ell := LineOfGroup(s.db, o, g);
      forall steps | AllPossible(steps) ensures !FulfilledAfter(s, steps, o) {
        NeverFulfilled(s, steps, o, ell);
      }
    }
  }

  predicate FulfilledAfter(s: System, steps: seq<Step>, o: Id) {
    o < |Run(s, steps).db.orders| && Run(s, steps).db.orders[o].status == Fulfilled
  }

  // ---------------------------------------------------------------------------
  // A retry that reads other details

  const NEW_COSTS := Details(1, 1)

  /** The first call posts but never learns of it; the second reads other details and gets as far as posting. */
  function ChangedSteps(): seq<Step> {
    Approval("A", STOCKED, 0) + Preparation(0, VIEW) + [PostGroup(0, General, true, false)] +
      [BeginFulfil(0, 5, NEW_COSTS)]
  }

  function PostedOnce(): System {
    var s := ReadyToPost(ClashStart(), "A", STOCKED);
    s.(db := s.db.(onHand := map[SHELF := 10],
                   postings := map["A" := Posting(General, 0, [Movement(0, SHELF, 5)], 0)],
                   documents := map[DocumentKey(General, "A") := Posted]))
  }

  lemma PostsUnheard()
    ensures Next(ReadyToPost(ClashStart(), "A", STOCKED), PostGroup(0, General, true, false)) == PostedOnce()
  {
    var s := ReadyToPost(ClashStart(), "A", STOCKED);
    assert s.calls == [Call(0, 5, [Movement(0, SHELF, 5)], [], COSTS, BeforeGeneral)];
    var document := DocumentKey(General, "A");
    assert PostingKey("A", General) == "A" && s.db.documents == map[document := Pending] &&
      s.db.orders[0].documentNo == "A";
    var plan, shelf: map<Key, int> := [Movement(0, SHELF, 5)], map[SHELF := 15];
    assert plan[..0] == [] && Withdraw(shelf, []) == Some(shelf);
    assert shelf[SHELF := 10] == map[SHELF := 10];
    assert Withdraw(shelf, plan) == Some(map[SHELF := 10]);
    var posting := Posting(General, 0, plan, 0);
    assert s.db.documents[document := Posted] == PostedOnce().db.documents;
    assert s.db.postings["A" := posting] == PostedOnce().db.postings;
    assert PostOf(s, 0, General, true) == Post(s.db, "A", posting, true);
    assert PostOf(s, 0, General, true) == Ok(PostedOnce().db);
  }

  lemma BeginsAgain()
    ensures var s := BeginStep(PostedOnce(), 0, 5, NEW_COSTS);
      && s.db == PostedOnce().db && |s.calls| == 2
      && s.calls[1] == Call(0, 5, [Movement(0, SHELF, 5)], [], NEW_COSTS, BeforeGeneral)
  {
    var s := PostedOnce();
    var orders := [Filed("A", STOCKED, Ready, 5)];
    assert s.db.orders == orders && s.db.allocations == [] + [RowOf(0, STOCKED)];
    PlansRow(orders, [], 0, STOCKED, General);
    PlansRow(orders, [], 0, STOCKED, JobOutput);
    assert PostingKey("A", General) == "A";
    assert |s.calls| == 1;
  }

  lemma ChangedRun()
    ensures Run(ClashStart(), ChangedSteps()) == BeginStep(PostedOnce(), 0, 5, NEW_COSTS)
    ensures AllPossible(ChangedSteps())
  {
    var s, p := ClashStart(), Approval("A", STOCKED, 0);
    assert [] + p == p;
    ApprovedOrder(s, [], "A", STOCKED);
    PreparedOrder(s, p, s, "A", STOCKED, VIEW);
    PostsUnheard();
    var q := p + Preparation(0, VIEW);
    RunAt(s, q, ReadyToPost(s, "A", STOCKED), PostGroup(0, General, true, false), PostedOnce());
    NextIsBegin(PostedOnce(), 0, 5, NEW_COSTS);
    RunAt(s, q + [PostGroup(0, General, true, false)], PostedOnce(), BeginFulfil(0, 5, NEW_COSTS),
          BeginStep(PostedOnce(), 0, 5, NEW_COSTS));
    PiecesPossible("A", STOCKED, 0);
    PossibleTogether(p, Preparation(0, VIEW));
    PossibleTogether(q, [PostGroup(0, General, true, false)]);
    PossibleTogether(q + [PostGroup(0, General, true, false)], [BeginFulfil(0, 5, NEW_COSTS)]);
  }

  /**
   * A posting whose answer was lost, retried with other details: the order is READY, nobody else has its
   * keys, and the retry is refused.
   */
  lemma ChangedDetailsRefused(eligible: bool)
    ensures AllPossible(ChangedSteps())
    ensures var s := Run(ClashStart(), ChangedSteps());
      && |s.calls| == 2 && |s.db.orders| == 1 && s.db.orders[0].status == Ready && Unblocked(s.db, 0)
      && PostOf(s, 1, General, eligible) == Err(IdempotencyKeyReused)
  {
    ChangedRun();
    BeginsAgain();
    var s := BeginStep(PostedOnce(), 0, 5, NEW_COSTS);
    assert s.db.orders == [Filed("A", STOCKED, Ready, 5)];
    assert PostingKey("A", General) == "A" && PostingKey("A", JobOutput) == "A:JOBOUT";
    forall g ensures !Blocked(s.db, 0, g) { }
  }
}
