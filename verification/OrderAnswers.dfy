/**
 * What each call of the order service answers, on every database: exactly when it commits, what it then
 * writes, and which error it gives otherwise; what a repeated call does; and whose lines an order carries.
 */
module OrderAnswers {
  import opened Common
  import opened Fefo
  import opened Orders
  import opened OrderFacts
  import opened FulfilmentProtocol
  import opened FulfilmentTheorems

  // ---------------------------------------------------------------------------
  // Calls that need an order in some status at some version

  /** The order exists, in one of the statuses, at the version the caller expects. */
  predicate Admits(db: Database, o: Id, from: set<Status>, version: nat) {
    o < |db.orders| && db.orders[o].status in from && db.orders[o].version == version
  }

  /** Otherwise the call is refused: no such order, then the wrong status, then the wrong version. */
  ghost predicate Refuses<T>(r: Result<T, Error>, db: Database, o: Id, from: set<Status>, version: nat) {
    && (o >= |db.orders| ==> r == Err(NotFound))
    && (o < |db.orders| && db.orders[o].status !in from ==> r == Err(InvalidTransition))
    && (o < |db.orders| && db.orders[o].status in from && db.orders[o].version != version ==>
         r == Err(ConcurrentModification))
  }

  /** Order `o` is now `order`; every other order, and every other table, is as it was. */
  predicate Rewrites(db: Database, db': Database, o: Id, order: Order) {
    && |db'.orders| == |db.orders| && o < |db.orders| && db'.orders[o] == order
    && (forall p :: 0 <= p < |db.orders| && p != o ==> db'.orders[p] == db.orders[p])
    && db'.fulfilments == db.fulfilments && db'.documents == db.documents && db'.postings == db.postings
    && db'.foreign == db.foreign && db'.onHand == db.onHand
  }

  // ---------------------------------------------------------------------------
  // Drafts

  /** Between one and a hundred lines, each of a positive quantity, and no snapshot empty or with a zero in it. */
  predicate Storable(lines: seq<Line>) {
    && 1 <= |lines| <= 100
    && forall i :: 0 <= i < |lines| ==>
         && lines[i].baseQuantity >= 1
         && (lines[i].owner.ComponentSnapshot? ==>
               && |lines[i].owner.components| >= 1
               && forall c :: 0 <= c < |lines[i].owner.components| ==> lines[i].owner.components[c].quantity >= 1)
  }

  /** A line of an order other than `except` is fed by the job order. */
  predicate JobTaken(orders: seq<Order>, except: Id, job: Id) {
    exists o, ell :: 0 <= o < |orders| && o != except && 0 <= ell < |orders[o].lines|
      && orders[o].lines[ell].owner == JobOrder(job)
  }

  /** No job order feeds two of the lines, or one of them and a line of another order. */
  predicate JobsUnused(orders: seq<Order>, except: Id, lines: seq<Line>) {
    && (forall i :: 0 <= i < |lines| && lines[i].owner.JobOrder? ==> !JobTaken(orders, except, lines[i].owner.job))
    && (forall i, j :: 0 <= i < j < |lines| && lines[i].owner.JobOrder? ==> lines[i].owner != lines[j].owner)
  }

  lemma StorableIsValid(lines: seq<Line>)
    ensures ValidLines(lines) <==> Storable(lines)
  {
    if ValidLines(lines) {
      forall i | 0 <= i < |lines| ensures ValidLine(lines[i]) { assert lines[i] in lines; }
    }
  }

  lemma UnusedIsFree(orders: seq<Order>, except: Id, lines: seq<Line>, rest: seq<Order>)
    requires |rest| == |orders| && forall o :: 0 <= o < |orders| && o != except ==> rest[o] == orders[o]
    requires except < |orders| ==> rest[except].lines == []
    ensures JobsFree(rest, lines) <==> JobsUnused(orders, except, lines)
  {
    if JobsUnused(orders, except, lines) {
      forall o, ell, i | 0 <= o < |rest| && 0 <= ell < |rest[o].lines| && 0 <= i < |lines|
        ensures !SameJob(rest[o].lines[ell], lines[i])
      {
        if lines[i].owner.JobOrder? && o != except { assert !JobTaken(orders, except, lines[i].owner.job); }
      }
    }
    if JobsFree(rest, lines) {
      forall i | 0 <= i < |lines| && lines[i].owner.JobOrder? ensures !JobTaken(orders, except, lines[i].owner.job) {
        forall o, ell | 0 <= o < |orders| && o != except && 0 <= ell < |orders[o].lines|
          ensures orders[o].lines[ell].owner != JobOrder(lines[i].owner.job)
        {
          assert !SameJob(rest[o].lines[ell], lines[i]);
        }
      }
      forall i, j | 0 <= i < j < |lines| && lines[i].owner.JobOrder? ensures lines[i].owner != lines[j].owner {
        assert !SameJob(lines[i], lines[j]);
      }
    }
  }

  /** A creation files the lines as version 1 of a new DRAFT order, if the number and the job orders are free. */
  lemma CreateAnswers(db: Database, documentNo: string, lines: seq<Line>)
    ensures var r := CreateDraft(db, documentNo, lines);
      var unused := forall o :: 0 <= o < |db.orders| ==> db.orders[o].documentNo != documentNo;
      && (r == Err(Validation) <==> !Storable(lines) || !unused)
      && (r == Err(UniqueViolation) <==> Storable(lines) && unused && !JobsUnused(db.orders, |db.orders|, lines))
      && (r.Ok? <==> Storable(lines) && unused && JobsUnused(db.orders, |db.orders|, lines))
      && (r.Ok? ==>
           && r.value.orders == db.orders + [Order(documentNo, Draft, 1, lines, None, None)]
           && r.value == db.(orders := r.value.orders))
  {
    StorableIsValid(lines);
    UnusedIsFree(db.orders, |db.orders|, lines, db.orders);
    if exists o :: 0 <= o < |db.orders| && db.orders[o].documentNo == documentNo {
      var o :| 0 <= o < |db.orders| && db.orders[o].documentNo == documentNo;
      assert db.orders[o] in db.orders;
    }
  }

  /**
   * An edit leaves exactly the lines it was given, or the old ones when it was given none, at the next
   * version. It commits exactly for a DRAFT order at its version, with storable lines whose job orders no
   * other order uses.
   */
  lemma EditAnswers(db: Database, o: Id, version: nat, lines: Option<seq<Line>>)
    ensures var r := UpdateDraft(db, o, version, lines);
      && Refuses(r, db, o, {Draft}, version)
      && (Admits(db, o, {Draft}, version) ==>
           && (r == Err(Validation) <==> lines.Some? && !Storable(lines.value))
           && (r == Err(UniqueViolation) <==>
                 lines.Some? && Storable(lines.value) && !JobsUnused(db.orders, o, lines.value))
           && (r.Ok? <==> lines.None? || (Storable(lines.value) && JobsUnused(db.orders, o, lines.value))))
      && (r.Ok? ==>
           && Admits(db, o, {Draft}, version) && r.value.allocations == db.allocations
           && Rewrites(db, r.value, o, Order(db.orders[o].documentNo, Draft, version + 1,
                if lines.Some? then lines.value else db.orders[o].lines,
                db.orders[o].submittedBy, db.orders[o].approvedBy)))
  {
    if lines.Some? && Admits(db, o, {Draft}, version) {
      StorableIsValid(lines.value);
      UnusedIsFree(db.orders, o, lines.value, db.orders[o := db.orders[o].(lines := [])]);
    }
  }

  // ---------------------------------------------------------------------------
  // Submit, approve, start production, cancel

  lemma SubmitAnswers(db: Database, o: Id, version: nat, actor: Id)
    ensures var r := Submit(db, o, version, actor);
      && Refuses(r, db, o, {Draft}, version)
      && (Admits(db, o, {Draft}, version) ==>
           && (r == Err(Validation) <==> db.orders[o].lines == [])
           && (r.Ok? <==> db.orders[o].lines != []))
      && (r.Ok? ==>
           && Admits(db, o, {Draft}, version) && r.value.allocations == db.allocations
           && Rewrites(db, r.value, o, Order(db.orders[o].documentNo, Submitted, version + 1, db.orders[o].lines,
                Some(actor), db.orders[o].approvedBy)))
  {
  }

  lemma ApproveAnswers(db: Database, o: Id, version: nat, actor: Id)
    ensures var r := Approve(db, o, version, actor);
      && Refuses(r, db, o, {Submitted}, version)
      && (Admits(db, o, {Submitted}, version) ==>
           && (r == Err(SegregationOfDuties) <==> db.orders[o].submittedBy == Some(actor))
           && (r.Ok? <==> db.orders[o].submittedBy != Some(actor)))
      && (r.Ok? ==>
           && Admits(db, o, {Submitted}, version) && r.value.allocations == db.allocations
           && Rewrites(db, r.value, o, Order(db.orders[o].documentNo, Approved, version + 1, db.orders[o].lines,
                db.orders[o].submittedBy, Some(actor))))
  {
  }

  /** The status of an order, its version one higher. */
  predicate Advances(db: Database, db': Database, o: Id, status: Status) {
    o < |db.orders| && Rewrites(db, db', o, db.orders[o].(status := status, version := db.orders[o].version + 1))
  }

  /** Starting production replays once started, and otherwise needs an ALLOCATED order with a job-order line. */
  lemma ProductionAnswers(db: Database, o: Id, version: nat)
    ensures var r := MarkInProduction(db, o, version);
      if o < |db.orders| && db.orders[o].status == InProduction then r == Ok(db)
      else
        && Refuses(r, db, o, {Allocated}, version)
        && (Admits(db, o, {Allocated}, version) ==>
             if forall ell :: 0 <= ell < |db.orders[o].lines| ==> !db.orders[o].lines[ell].owner.JobOrder?
             then r == Err(InvalidTransition)
             else r.Ok? && r.value.allocations == db.allocations && Advances(db, r.value, o, InProduction))
  {
    if Admits(db, o, {Allocated}, version) {
      if exists ell :: 0 <= ell < |db.orders[o].lines| && db.orders[o].lines[ell].owner.JobOrder? {
        var ell :| 0 <= ell < |db.orders[o].lines| && db.orders[o].lines[ell].owner.JobOrder?;
        assert db.orders[o].lines[ell] in db.orders[o].lines;
      }
    }
  }

  /** A cancel needs a reason and an order not yet final; it releases exactly the order's ACTIVE rows. */
  lemma CancelAnswers(db: Database, o: Id, version: nat, reasonGiven: bool)
    ensures var r := Cancel(db, o, version, reasonGiven);
      var from := {Draft, Submitted, Approved, Allocated, InProduction, Ready};
      && (o >= |db.orders| ==> r == Err(NotFound))
      && (o < |db.orders| && !reasonGiven ==> r == Err(Validation))
      && (reasonGiven ==> Refuses(r, db, o, from, version))
      && (r.Ok? <==> reasonGiven && Admits(db, o, from, version))
      && (r.Ok? ==>
           && Advances(db, r.value, o, Cancelled) && |r.value.allocations| == |db.allocations|
           && forall i :: 0 <= i < |db.allocations| ==>
                var row := db.allocations[i];
                r.value.allocations[i] ==
                  if row.order == o && row.status == Active
                  then Allocation(row.order, row.line, row.key, row.quantity, Released) else row)
  {
  }

  // ---------------------------------------------------------------------------
  // Allocate and mark ready: what is refused, replayed and written beside the rows

  lemma AllocateAnswers(db: Database, o: Id, version: nat, view: StockView)
    ensures var r := Allocate(db, o, version, view);
      if o < |db.orders| && db.orders[o].status == Allocated then r == Ok(db)
      else
        && Refuses(r, db, o, {Approved}, version)
        && (Admits(db, o, {Approved}, version) && db.orders[o].lines == [] ==> r == Err(Validation))
        && (r.Ok? ==> Admits(db, o, {Approved}, version) && Advances(db, r.value, o, Allocated))
  {
  }

  lemma ReadyAnswers(db: Database, o: Id, version: nat, view: StockView)
    ensures var r := MarkReady(db, o, version, view);
      if o < |db.orders| && db.orders[o].status == Ready then r == Ok(db)
      else
        && Refuses(r, db, o, {Allocated, InProduction}, version)
        && (r.Ok? ==> Admits(db, o, {Allocated, InProduction}, version) && Advances(db, r.value, o, Ready))
  {
  }

  // ---------------------------------------------------------------------------
  // Fulfil

  /** Row `i` is an ACTIVE reservation of one of the order's lines: of one fed by a job order, or of another. */
  predicate HeldFor(orders: seq<Order>, rows: seq<Allocation>, o: Id, job: bool, i: Id) {
    && o < |orders| && i < |rows| && rows[i].status == Active && rows[i].order == o
    && rows[i].line < |orders[o].lines| && orders[o].lines[rows[i].line].owner.JobOrder? == job
  }

  /** The movement of a held row: that row, its key and its quantity. */
  predicate Moves(orders: seq<Order>, rows: seq<Allocation>, o: Id, job: bool, m: Movement) {
    HeldFor(orders, rows, o, job, m.allocation) &&
      m == Movement(m.allocation, rows[m.allocation].key, rows[m.allocation].quantity)
  }

  /** The plan has one movement for each held row of its group, in row order, and no others. */
  ghost predicate Lists(orders: seq<Order>, rows: seq<Allocation>, o: Id, job: bool, plan: seq<Movement>) {
    && (forall j :: 0 <= j < |plan| ==> Moves(orders, rows, o, job, plan[j]))
    && (forall i :: 0 <= i < |rows| && HeldFor(orders, rows, o, job, i) ==> Carries(plan, i))
    && (forall j, k :: 0 <= j < k < |plan| ==> plan[j].allocation < plan[k].allocation)
  }

  lemma {:induction false} PlanLists(orders: seq<Order>, rows: seq<Allocation>, o: Id, group: Group)
    requires o < |orders|
    ensures Lists(orders, rows, o, group == JobOutput, Plan(orders, rows, o, group))
  {
    if rows != [] {
      var n := |rows| - 1;
      PlanLists(orders, rows[..n], o, group);
      ListsOneMore(orders, rows, o, group ==
        JobOutput, Plan(orders, rows[..n], o, group), Plan(orders, rows, o, group));
    }
  }

  lemma ListsOneMore(orders: seq<Order>, rows: seq<Allocation>, o: Id, job: bool, plan: seq<Movement>,
      now: seq<Movement>)
    requires o < |orders| && rows != [] && Lists(orders, rows[..|rows| - 1], o, job, plan)
    requires var n := |rows| - 1;
      now == if HeldFor(orders, rows, o, job, n) then plan + [Movement(n, rows[n].key, rows[n].quantity)] else plan
    ensures Lists(orders, rows, o, job, now)
  {
    var n := |rows| - 1;
    EarlierMoves(orders, rows, o, job, plan);
    if HeldFor(orders, rows, o, job, n) {
      var last := Movement(n, rows[n].key, rows[n].quantity);
      assert Moves(orders, rows, o, job, last) && now == plan + [last];
      assert Carries(now, n) by { assert now[|plan|] == last; }
    }
    forall i | 0 <= i < n && HeldFor(orders, rows, o, job, i) ensures Carries(now, i) {
      assert HeldFor(orders, rows[..n], o, job, i);
      CarriesMore(plan, now, i);
    }
  }

  lemma EarlierMoves(orders: seq<Order>, rows: seq<Allocation>, o: Id, job: bool, plan: seq<Movement>)
    requires rows != [] && forall j :: 0 <= j < |plan| ==> Moves(orders, rows[..|rows| - 1], o, job, plan[j])
    ensures forall j :: 0 <= j < |plan| ==> Moves(orders, rows, o, job, plan[j]) && plan[j].allocation < |rows| - 1
  {
    forall j | 0 <= j < |plan| ensures Moves(orders, rows, o, job, plan[j]) && plan[j].allocation < |rows| - 1 {
      assert Moves(orders, rows[..|rows| - 1], o, job, plan[j]);
    }
  }

  lemma CarriesMore(plan: seq<Movement>, now: seq<Movement>, i: Id)
    requires plan <= now && Carries(plan, i)
    ensures Carries(now, i)
  {
    var j :| 0 <= j < |plan| && plan[j].allocation == i;
    assert now[j].allocation == i;
  }

  /** The documents of an order, under its number and its number plus ":JOBOUT". */
  function GeneralDocument(order: Order): DocumentKey { DocumentKey(General, order.documentNo) }

  function JobDocument(order: Order): DocumentKey { DocumentKey(JobOutput, order.documentNo + ":JOBOUT") }

  /** What a plan needs on file is there, PENDING if it was not before; all else is as it was. */
  ghost predicate Files(db: Database, db': Database, order: Order, general: bool, job: bool) {
    && db' == db.(documents := db'.documents)
    && (forall d :: d in db'.documents <==>
          d in db.documents || (general && d == GeneralDocument(order)) || (job && d == JobDocument(order)))
    && (forall d :: d in db'.documents ==>
          db'.documents[d] == if d in db.documents then db.documents[d] else Pending)
  }

  /**
   * The first transaction of a fulfil call. For a FULFILLED order it answers with a replay and writes
   * nothing, whatever version the caller expects. Otherwise it commits exactly for a READY order at its
   * version that holds an ACTIVE row, with the plans of both groups and their documents on file.
   */
  lemma PrepareAnswers(db: Database, o: Id, version: nat)
    ensures var r := Prepare(db, o, version);
      if o < |db.orders| && db.orders[o].status == Fulfilled then r == Ok((db, Replay))
      else
        && Refuses(r, db, o, {Ready}, version)
        && (Admits(db, o, {Ready}, version) ==>
             if forall i, job :: 0 <= i < |db.allocations| ==>
               !HeldFor(db.orders, db.allocations, o, job, i) then r == Err(Validation)
             else r.Ok? && r.value.1.Planned?)
        && (r.Ok? && r.value.1.Planned? ==>
             && Lists(db.orders, db.allocations, o, false, r.value.1.general)
             && Lists(db.orders, db.allocations, o, true, r.value.1.job)
             && Files(db, r.value.0, db.orders[o], r.value.1.general != [], r.value.1.job != []))
  {
    if Admits(db, o, {Ready}, version) {
      PlanLists(db.orders, db.allocations, o, General);
      PlanLists(db.orders, db.allocations, o, JobOutput);
      var general, job := Plan(db.orders, db.allocations, o, General), Plan(db.orders, db.allocations, o, JobOutput);
      assert general != [] ==> Moves(db.orders, db.allocations, o, false, general[0]);
      assert job != [] ==> Moves(db.orders, db.allocations, o, true, job[0]);
    }
  }

  /** Once an order is FULFILLED, a fulfil call at any version replays, after any steps, and starts nothing. */
  lemma FulfilledReplays(s: System, steps: seq<Step>, o: Id, version: nat, details: Details)
    requires o < |s.db.orders| && s.db.orders[o].status == Fulfilled
    ensures var t := Run(s, steps);
      && Prepare(t.db, o, version) == Ok((t.db, Replay))
      && Next(t, BeginFulfil(o, version, details)) == t
  {
    FinalStatuses(s, steps, o);
    PrepareAnswers(Run(s, steps).db, o, version);
  }

  /** The allocation is carried by the posting under one of the keys. */
  predicate Resolved(db: Database, general: Option<string>, job: Option<string>, allocation: Id) {
    || (general.Some? && general.value in db.postings && Carries(db.postings[general.value].movements, allocation))
    || (job.Some? && job.value in db.postings && Carries(db.postings[job.value].movements, allocation))
  }

  predicate AllResolved(db: Database, general: Option<string>, job: Option<string>, movements: seq<Movement>) {
    forall i :: 0 <= i < |movements| ==> Resolved(db, general, job, movements[i].allocation)
  }

  lemma ResolvedMeans(db: Database, general: Option<string>, job: Option<string>, allocation: Id)
    ensures ResolvePosting(db, general, job, allocation).Some? <==> Resolved(db, general, job, allocation)
  {
  }

  lemma ResolvedOneMore(db: Database, general: Option<string>, job: Option<string>, movements: seq<Movement>)
    requires movements != []
    ensures var n := |movements| - 1;
      AllResolved(db, general, job, movements) <==>
        AllResolved(db, general, job, movements[..n]) && Resolved(db, general, job, movements[n].allocation)
  {
    var n := |movements| - 1;
    if AllResolved(db, general, job, movements[..n]) && Resolved(db, general, job, movements[n].allocation) {
      forall i | 0 <= i < |movements| ensures Resolved(db, general, job, movements[i].allocation) {
        if i < n { assert movements[..n][i] == movements[i]; }
      }
    }
    if AllResolved(db, general, job, movements) {
      forall i | 0 <= i < n ensures Resolved(db, general, job, movements[..n][i].allocation) {
        assert movements[..n][i] == movements[i];
      }
    }
  }

  lemma ConsumeLast(db: Database, general: Option<string>, job: Option<string>, movements: seq<Movement>)
    requires movements != []
    ensures var n := |movements| - 1;
      var before, posting := ConsumeAll(db, general, job, movements[..n]),
                             ResolvePosting(db, general, job, movements[n].allocation);
      && (ConsumeAll(db, general, job, movements).Ok? <==> before.Ok? && posting.Some?)
      && (before.Err? ==> ConsumeAll(db, general, job, movements) == before)
      && (before.Ok? && posting.None? ==> ConsumeAll(db, general, job, movements) == Err(ConcurrentModification))
  {
  }

  lemma {:induction false} ConsumeAnswers(db: Database, general: Option<string>, job: Option<string>,
      movements: seq<Movement>)
    ensures ConsumeAll(db, general, job, movements).Ok? <==> AllResolved(db, general, job, movements)
    ensures var r := ConsumeAll(db, general, job, movements); r.Err? ==> r == Err(ConcurrentModification)
  {
    if movements != [] {
      var n := |movements| - 1;
      ConsumeAnswers(db, general, job, movements[..n]);
      ConsumeLast(db, general, job, movements);
      ResolvedMeans(db, general, job, movements[n].allocation);
      ResolvedOneMore(db, general, job, movements);
    }
  }

  /** The keys under which a call has posted: its order's number, and its number plus ":JOBOUT". */
  function KeysUsed(order: Order, general: seq<Movement>, job: seq<Movement>): (Option<string>, Option<string>) {
    (if general != [] then Some(order.documentNo) else None, if job != [] then Some(order.documentNo + ":JOBOUT")
      else None)
  }

  /**
   * The last transaction of a fulfil call commits exactly when its movements are in its postings and the
   * order is READY at its version, which it then ends, or has been FULFILLED meanwhile, which is a replay.
   */
  lemma FinalizeAnswers(db: Database, o: Id, version: nat, general: seq<Movement>, job: seq<Movement>)
    requires o < |db.orders|
    ensures var r, keys := Finalize(db, o, version, general, job), KeysUsed(db.orders[o], general, job);
      && (r.Ok? <==>
           && AllResolved(db, keys.0, keys.1, general + job)
           && (db.orders[o].status == Fulfilled || Admits(db, o, {Ready}, version)))
      && (r.Err? ==> r == Err(ConcurrentModification))
      && (r.Ok? && db.orders[o].status == Fulfilled ==> r.value.orders == db.orders)
      && (r.Ok? && db.orders[o].status == Ready ==> Advances(db, r.value.(fulfilments := db.fulfilments), o, Fulfilled))
  {
    var keys := KeysUsed(db.orders[o], general, job);
    ConsumeAnswers(db, keys.0, keys.1, general + job);
  }

  /** The posting service on any request: what it is refused for, in order, and what it writes. */
  lemma PostAnswers(db: Database, key: string, posting: Posting, eligible: bool)
    ensures var r, document := Post(db, key, posting, eligible), DocumentKey(posting.group, key);
      var first := document in db.documents && key !in db.postings && key !in db.foreign;
      && (r == Err(DocumentNotFound) <==> document !in db.documents)
      && (document in db.documents && key in db.postings && db.postings[key] == posting ==> r == Ok(db))
      && (document in db.documents && key in db.postings && db.postings[key] != posting ==>
           r == Err(IdempotencyKeyReused))
      && (document in db.documents && key !in db.postings && key in db.foreign ==> r == Err(IdempotencyKeyReused))
      && (first && db.documents[document] == Posted ==> r == Err(InvalidTransition))
      && (first && db.documents[document] == Pending && !eligible ==> r == Err(NotEligible))
      && (first && db.documents[document] == Pending && eligible ==>
           && (r == Err(InsufficientStock(None)) <==> Withdraw(db.onHand, posting.movements).None?)
           && (r.Ok? <==> Withdraw(db.onHand, posting.movements).Some?))
      && (first && r.Ok? ==>
           && Withdraw(db.onHand, posting.movements) == Some(r.value.onHand)
           && r.value.postings == db.postings[key := posting] && r.value.documents == db.documents[document := Posted]
           && r.value == db.(onHand := r.value.onHand, postings := r.value.postings, documents := r.value.documents))
  {
  }

  /** Whether a failed call's compensation takes the document away: it is the call's, and nothing has posted it. */
  predicate Compensated(s: System, call: Call, dropGeneral: bool, dropJob: bool, d: DocumentKey)
    requires call.order < |s.db.orders|
  {
    && d in s.db.documents && s.db.documents[d] == Pending
    && ((dropGeneral && call.general != [] && d == GeneralDocument(s.db.orders[call.order]))
        || (dropJob && call.job != [] && d == JobDocument(s.db.orders[call.order])))
  }

  /** Compensation after a failed posting removes the call's untouched documents, ends the call, and does no more. */
  lemma AbandonAnswers(s: System, c: nat, dropGeneral: bool, dropJob: bool)
    requires c < |s.calls| && s.calls[c].stage in {BeforeGeneral, BeforeJob} && s.calls[c].order < |s.db.orders|
    ensures var t, call := Next(s, AbandonFulfil(c, dropGeneral, dropJob)), s.calls[c];
      && t.calls == s.calls[c := call.(stage := Closed)] && t.received == s.received
      && t.db == s.db.(documents := t.db.documents)
      && (forall d :: d in t.db.documents <==>
            d in s.db.documents && !Compensated(s, call, dropGeneral, dropJob, d))
      && (forall d :: d in t.db.documents ==> t.db.documents[d] == s.db.documents[d])
  {
    var order := s.db.orders[s.calls[c].order];
    assert DocumentKey(General, PostingKey(order.documentNo, General)) == GeneralDocument(order);
    assert DocumentKey(JobOutput, PostingKey(order.documentNo, JobOutput)) == JobDocument(order);
    assert GeneralDocument(order) != JobDocument(order);
  }

  // ---------------------------------------------------------------------------
  // Repeating a call

  /**
   * Allocate, start-production and ready, once committed, answer the same call with the order as it is,
   * whatever version it expects and whatever stock it finds.
   */
  lemma RepeatReplays(db: Database, o: Id, v: nat, w: nat, view: StockView, other: StockView)
    ensures var r := Allocate(db, o, v, view); r.Ok? ==> Allocate(r.value, o, w, other) == r
    ensures var r := MarkInProduction(db, o, v); r.Ok? ==> MarkInProduction(r.value, o, w) == r
    ensures var r := MarkReady(db, o, v, view); r.Ok? ==> MarkReady(r.value, o, w, other) == r
  {
    AllocateAnswers(db, o, v, view);
    var a := Allocate(db, o, v, view);
    if a.Ok? { AllocateAnswers(a.value, o, w, other); }
    ProductionAnswers(db, o, v);
    var p := MarkInProduction(db, o, v);
    if p.Ok? { ProductionAnswers(p.value, o, w); }
    ReadyAnswers(db, o, v, view);
    var r := MarkReady(db, o, v, view);
    if r.Ok? { ReadyAnswers(r.value, o, w, other); }
  }

  /** The other calls, once committed, are refused when they are sent again. */
  lemma RepeatRefused(db: Database, o: Id, v: nat, actor: Id, documentNo: string, lines: seq<Line>,
      edited: Option<seq<Line>>)
    ensures var r := CreateDraft(db, documentNo, lines);
      r.Ok? ==> CreateDraft(r.value, documentNo, lines) == Err(Validation)
    ensures var r := UpdateDraft(db, o, v, edited);
      r.Ok? ==> UpdateDraft(r.value, o, v, edited) == Err(ConcurrentModification)
    ensures var r := Submit(db, o, v, actor); r.Ok? ==> Submit(r.value, o, v, actor) == Err(InvalidTransition)
    ensures var r := Approve(db, o, v, actor); r.Ok? ==> Approve(r.value, o, v, actor) == Err(InvalidTransition)
    ensures var r := Cancel(db, o, v, true); r.Ok? ==> Cancel(r.value, o, v, true) == Err(InvalidTransition)
  {
    CreateAnswers(db, documentNo, lines);
    var r := CreateDraft(db, documentNo, lines);
    if r.Ok? {
      CreateAnswers(r.value, documentNo, lines);
      assert r.value.orders[|db.orders|].documentNo == documentNo;
    }
    EditAnswers(db, o, v, edited);
    SubmitAnswers(db, o, v, actor);
    ApproveAnswers(db, o, v, actor);
    CancelAnswers(db, o, v, true);
  }

  // ---------------------------------------------------------------------------
  // Whose lines an order carries

  /** The lines of the committed creation of order `o`, or of the last committed edit that gave any. */
  function Entered(s: System, steps: seq<Step>, o: Id): seq<Line> {
    if steps == [] then (if o < |s.db.orders| then s.db.orders[o].lines else []) else
      var n := |steps| - 1;
      var db := Run(s, steps[..n]).db;
      match steps[n]
      case NewDraft(documentNo, lines) =>
        if o == |db.orders| && CreateDraft(db, documentNo, lines).Ok? then lines else Entered(s, steps[..n], o)
      case EditDraft(p, v, Some(lines)) =>
        if p == o && UpdateDraft(db, p, v, Some(lines)).Ok? then lines else Entered(s, steps[..n], o)
      case _ => Entered(s, steps[..n], o)
  }

  /** In every run each order carries the lines last entered for it. */
  lemma {:induction false} LinesAsEntered(s: System, steps: seq<Step>, o: Id)
    requires o < |Run(s, steps).db.orders|
    ensures Run(s, steps).db.orders[o].lines == Entered(s, steps, o)
  {
    if steps != [] {
      var n := |steps| - 1;
      var before := Run(s, steps[..n]);
      if steps[n].NewDraft? {
        CreateAnswers(before.db, steps[n].documentNo, steps[n].draftLines);
        if o < |before.db.orders| { LinesAsEntered(s, steps[..n], o); }
      } else if steps[n].EditDraft? {
        EditAnswers(before.db, steps[n].order, steps[n].version, steps[n].lines);
        LinesAsEntered(s, steps[..n], o);
      } else {
        LinesKept(before, steps[n]);
        LinesAsEntered(s, steps[..n], o);
      }
    }
  }
}
