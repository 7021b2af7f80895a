/**
 * The fulfilment engine as a transition system. Each transaction of the order service and of the
 * posting service is one atomic step; any number of fulfil calls run between them, may be retried,
 * and may stop for good at any point. `received` is bookkeeping: all stock ever put on hand.
 */
module FulfilmentProtocol {
  import opened Common
  import opened Fefo
  import opened Orders
  import opened OrderFacts

  /** How far one fulfil call has got; a Closed call never acts again. */
  datatype Stage = BeforeGeneral | BeforeJob | BeforeFinalize | Closed

  /**
   * What prepare reads of each group beside its plan, and the request hash covers: unit costs, units,
   * and the order in which rows of one balance come back.
   */
  datatype Details = Details(general: Id, job: Id)

  function DetailsFor(details: Details, group: Group): Id { if group == General then details.general else details.job }

  /** A fulfil call after its prepare transaction committed, with the plan and details it holds in memory. */
  datatype Call = Call(order: Id, version: nat, general: seq<Movement>, job: seq<Movement>, details: Details,
      stage: Stage)

  datatype System = System(db: Database, calls: seq<Call>, received: map<Key, int>)

  datatype Step =
    | NewDraft(documentNo: string, draftLines: seq<Line>)
    | EditDraft(order: Id, version: nat, lines: Option<seq<Line>>)
    | SubmitOrder(order: Id, version: nat, actor: Id)
    | ApproveOrder(order: Id, version: nat, actor: Id)
    | AllocateOrder(order: Id, version: nat, view: StockView)
    | StartProduction(order: Id, version: nat)
    | ReadyOrder(order: Id, version: nat, view: StockView)
    | CancelOrder(order: Id, version: nat, reasonGiven: bool)
    | BeginFulfil(order: Id, version: nat, details: Details)
    | PostGroup(call: nat, group: Group, eligible: bool, acknowledged: bool)
    | FinishFulfil(call: nat)
    | AbandonFulfil(call: nat, dropGeneral: bool, dropJob: bool)
    | CrashFulfil(call: nat)
    | ReceiveStock(key: Key, quantity: nat)
    | PostElsewhere(idempotencyKey: string)

  // ---------------------------------------------------------------------------
  // Steps

  function Commit(s: System, r: Result<Database, Error>): System {
    if r.Ok? then s.(db := r.value) else s
  }

  function AtStage(s: System, c: nat, stage: Stage): System
    requires c < |s.calls|
  {
    s.(calls := s.calls[c := s.calls[c].(stage := stage)])
  }

  function Moves(call: Call, group: Group): seq<Movement> {
    if group == General then call.general else call.job
  }

  function StageFor(group: Group): Stage { if group == General then BeforeGeneral else BeforeJob }

  function StageAfter(group: Group): Stage { if group == General then BeforeJob else BeforeFinalize }

  function DocumentNo(db: Database, o: Id): string {
    if o < |db.orders| then db.orders[o].documentNo else ""
  }

  /** The posting service's answer to one group of a call. */
  function PostOf(s: System, c: nat, group: Group, eligible: bool): Result<Database, Error>
    requires c < |s.calls|
  {
    var call := s.calls[c];
    Post(s.db, PostingKey(DocumentNo(s.db, call.order), group),
         Posting(group, call.order, Moves(call, group), DetailsFor(call.details, group)), eligible)
  }

  /** One posting call; without an acknowledgement the posting commits but the caller never learns of it. */
  function PostStep(s: System, c: nat, group: Group, eligible: bool, acknowledged: bool): System {
    if c >= |s.calls| || s.calls[c].stage != StageFor(group) then s
    else
      var call := s.calls[c];
      if Moves(call, group) == [] then AtStage(s, c, StageAfter(group))
      else
        var r := PostOf(s, c, group, eligible);
        if r.Err? then s
        else if acknowledged then AtStage(s.(db := r.value), c, StageAfter(group))
        else s.(db := r.value)
  }

  function BeginStep(s: System, o: Id, version: nat, details: Details): System {
    var r := Prepare(s.db, o, version);
    if r.Err? || r.value.1.Replay? then s
    else s.(db := r.value.0,
      calls := s.calls + [Call(o, version, r.value.1.general, r.value.1.job, details, BeforeGeneral)])
  }

  function FinishStep(s: System, c: nat): System {
    if c >= |s.calls| || s.calls[c].stage != BeforeFinalize || s.calls[c].order >= |s.db.orders| then s
    else
      var call := s.calls[c];
      AtStage(Commit(s, Finalize(s.db, call.order, call.version, call.general, call.job)), c, Closed)
  }

  /** A posting threw: the two compensating deletes are separate statements, so either may be missing. */
  function AbandonStep(s: System, c: nat, dropGeneral: bool, dropJob: bool): System {
    if c >= |s.calls| || s.calls[c].stage !in {BeforeGeneral, BeforeJob} then s
    else
      var call := s.calls[c];
      var documentNo := DocumentNo(s.db, call.order);
      var d1 := if dropGeneral && call.general != []
        then DropDocument(s.db.documents, DocumentKey(General, PostingKey(documentNo, General))) else s.db.documents;
      var d2 := if dropJob && call.job != []
        then DropDocument(d1, DocumentKey(JobOutput, PostingKey(documentNo, JobOutput))) else d1;
      AtStage(s.(db := s.db.(documents := d2)), c, Closed)
  }

  /** The process running a call dies. */
  function CrashStep(s: System, c: nat): System {
    if c < |s.calls| then AtStage(s, c, Closed) else s
  }

  function ReceiveStep(s: System, key: Key, quantity: nat): System {
    s.(db := s.db.(onHand := s.db.onHand[key := Lookup(s.db.onHand, key) + quantity]),
       received := s.received[key := Lookup(s.received, key) + quantity])
  }

  function Next(s: System, step: Step): System {
    match step
    case NewDraft(documentNo, lines) => Commit(s, CreateDraft(s.db, documentNo, lines))
    case EditDraft(o, v, lines) => Commit(s, UpdateDraft(s.db, o, v, lines))
    case SubmitOrder(o, v, actor) => Commit(s, Submit(s.db, o, v, actor))
    case ApproveOrder(o, v, actor) => Commit(s, Approve(s.db, o, v, actor))
    case AllocateOrder(o, v, view) => Commit(s, Allocate(s.db, o, v, view))
    case StartProduction(o, v) => Commit(s, MarkInProduction(s.db, o, v))
    case ReadyOrder(o, v, view) => Commit(s, MarkReady(s.db, o, v, view))
    case CancelOrder(o, v, reasonGiven) => Commit(s, Cancel(s.db, o, v, reasonGiven))
    case BeginFulfil(o, v, details) => BeginStep(s, o, v, details)
    case PostGroup(c, group, eligible, acknowledged) => PostStep(s, c, group, eligible, acknowledged)
    case FinishFulfil(c) => FinishStep(s, c)
    case AbandonFulfil(c, g, j) => AbandonStep(s, c, g, j)
    case CrashFulfil(c) => CrashStep(s, c)
    case ReceiveStock(key, quantity) => ReceiveStep(s, key, quantity)
    case PostElsewhere(key) => s.(db := TakeKey(s.db, key))
  }

  /** Reads come from SQL, which returns each balance row once and only rows of the item asked for. */
  ghost predicate Possible(step: Step) {
    (step.AllocateOrder? || step.ReadyOrder?) ==> WellRead(step.view)
  }

  function Start(onHand: map<Key, int>): System {
    System(Database([], [], [], map[], map[], {}, onHand), [], onHand)
  }

  function Run(s: System, steps: seq<Step>): System {
    if steps == [] then s else Next(Run(s, steps[..|steps| - 1]), steps[|steps| - 1])
  }

  // ---------------------------------------------------------------------------
  // The invariant of every run

  predicate Frozen(status: Status) { status in {Ready, Fulfilled, Cancelled} }

  function RowStatus(status: Status): Option<AllocationStatus> {
    match status
    case Draft => None
    case Submitted => None
    case Approved => None
    case Allocated => Some(Active)
    case InProduction => Some(Active)
    case Ready => Some(Active)
    case Fulfilled => Some(Consumed)
    case Cancelled => Some(Released)
  }

  predicate ApprovalOk(order: Order) {
    && (order.approvedBy.Some? ==> order.submittedBy.Some? && order.approvedBy != order.submittedBy)
    && (order.status in {Approved, Allocated, InProduction, Ready, Fulfilled} ==> order.approvedBy.Some?)
    && (order.status in {Draft, Submitted} ==> order.approvedBy.None?)
    && (order.status == Submitted ==> order.submittedBy.Some?)
  }

  predicate OrdersOk(db: Database) {
    && (forall o :: 0 <= o < |db.orders| ==>
          db.orders[o].version >= 1 && ValidLines(db.orders[o].lines) && ApprovalOk(db.orders[o]))
    && (forall o, p :: 0 <= o < p < |db.orders| ==> db.orders[o].documentNo != db.orders[p].documentNo)
  }

  predicate RowOk(db: Database, a: Allocation) {
    && a.order < |db.orders| && a.line < |db.orders[a.order].lines|
    && a.quantity > 0 && a.key in db.onHand
    && RowStatus(db.orders[a.order].status) == Some(a.status)
  }

  /** The status of every allocation row is determined by the status of its order. */
  predicate RowsOk(db: Database) {
    forall i :: 0 <= i < |db.allocations| ==> RowOk(db, db.allocations[i])
  }

  ghost predicate LineOk(db: Database, o: Id, ell: nat)
    requires o < |db.orders| && ell < |db.orders[o].lines|
  {
    && (db.orders[o].status in {Allocated, InProduction} ==>
         LineSettled(db.allocations, o, ell, db.orders[o].lines[ell]))
    && (db.orders[o].status in {Ready, Fulfilled} ==> Covers(db.allocations, o, ell, db.orders[o].lines[ell]))
  }

  ghost predicate CoverageOk(db: Database) {
    forall o, ell :: 0 <= o < |db.orders| && 0 <= ell < |db.orders[o].lines| ==> LineOk(db, o, ell)
  }

  predicate GroupPosted(db: Database, o: Id, group: Group)
    requires o < |db.orders|
  {
    var key := PostingKey(db.orders[o].documentNo, group);
    key in db.postings && db.postings[key].group == group && db.postings[key].order == o
  }

  predicate RowPosted(db: Database, a: Allocation) {
    a.order < |db.orders| && a.line < |db.orders[a.order].lines| &&
      GroupPosted(db, a.order, GroupOf(db.orders[a.order].lines[a.line]))
  }

  /** A posting is the whole plan of one group of one order, under that group's key, once. */
  predicate PostingOk(db: Database, key: string)
    requires key in db.postings
  {
    var p := db.postings[key];
    && p.order < |db.orders| && Frozen(db.orders[p.order].status)
    && key == PostingKey(db.orders[p.order].documentNo, p.group)
    && p.movements != [] && p.movements == FullPlan(db.orders, db.allocations, p.order, p.group)
    && DocumentKey(p.group, key) in db.documents && db.documents[DocumentKey(p.group, key)] == Posted
  }

  ghost predicate PostingsOk(db: Database) {
    && (forall key :: key in db.postings ==> PostingOk(db, key))
    && (forall d :: d in db.documents && db.documents[d] == Posted ==>
          d.documentNo in db.postings && db.postings[d.documentNo].group == d.group)
  }

  ghost predicate FulfilledPosted(db: Database) {
    forall o, g :: 0 <= o < |db.orders| && db.orders[o].status == Fulfilled ==>
      FullPlan(db.orders, db.allocations, o, g) == [] || GroupPosted(db, o, g)
  }

  predicate CallOk(db: Database, call: Call) {
    && call.order < |db.orders| && Frozen(db.orders[call.order].status)
    && call.general == FullPlan(db.orders, db.allocations, call.order, General)
    && call.job == FullPlan(db.orders, db.allocations, call.order, JobOutput)
    && (call.general != [] || call.job != [])
    && (db.orders[call.order].status == Ready ==> call.version == db.orders[call.order].version)
    && (call.stage in {BeforeJob, BeforeFinalize} ==> call.general == [] || GroupPosted(db, call.order, General))
    && (call.stage == BeforeFinalize ==> call.job == [] || GroupPosted(db, call.order, JobOutput))
  }

  predicate CallsOk(db: Database, calls: seq<Call>) {
    forall c :: 0 <= c < |calls| ==> CallOk(db, calls[c])
  }

  function PostedWeights(db: Database, key: Key): (w: seq<int>)
    ensures |w| == |db.allocations|
  {
    seq(|db.allocations|, i requires 0 <= i < |db.allocations| =>
      if RowPosted(db, db.allocations[i]) && db.allocations[i].key == key then db.allocations[i].quantity else 0)
  }

  /** Everything ever posted out of one balance row, summed over allocations. */
  function PostedAt(db: Database, key: Key): int { Total(PostedWeights(db, key)) }

  ghost predicate Conserved(s: System) {
    && s.db.onHand.Keys == s.received.Keys
    && (forall k :: k in s.db.onHand ==> s.db.onHand[k] >= 0 && s.db.onHand[k] + PostedAt(s.db, k) == s.received[k])
  }

  ghost predicate HistoryOk(db: Database) {
    HistoryMatches(db.orders, Ledger(db.allocations, db.fulfilments))
  }

  ghost predicate Inv(s: System) {
    && OrdersOk(s.db) && RowsOk(s.db) && CoverageOk(s.db) && HistoryOk(s.db)
    && PostingsOk(s.db) && FulfilledPosted(s.db) && CallsOk(s.db, s.calls) && Conserved(s)
  }

  // ---------------------------------------------------------------------------
  // What the order transactions have in common

  /** Order-table transactions: rows are only added or re-flagged, and a frozen order's plan is fixed. */
  ghost predicate Evolves(db: Database, db': Database) {
    && |db.orders| <= |db'.orders|
    && (forall o :: 0 <= o < |db.orders| ==> OrderEvolves(db.orders[o], db'.orders[o]))
    && |db.allocations| <= |db'.allocations|
    && (forall i :: 0 <= i < |db.allocations| ==> SameRow(db.allocations[i], db'.allocations[i]))
    && (forall i :: |db.allocations| <= i < |db'.allocations| ==>
          db'.allocations[i].order < |db.orders| && !Frozen(db.orders[db'.allocations[i].order].status))
    && db'.postings == db.postings && db'.onHand == db.onHand
    && (forall d :: d in db.documents && db.documents[d] == Posted ==> d in db'.documents && db'.documents[d] == Posted)
    && (forall d :: d in db'.documents && db'.documents[d] == Posted ==> d in db.documents && db.documents[d] == Posted)
  }

  predicate OrderEvolves(a: Order, b: Order) {
    && b.documentNo == a.documentNo
    && (a.status != Draft ==> b.lines == a.lines)
    && (Frozen(a.status) ==> Frozen(b.status))
    && (a.status == Ready && b.status == Ready ==> b.version == a.version)
    && (a.status in {Fulfilled, Cancelled} ==> b.status == a.status)
  }

  lemma EvolvesPostings(db: Database, db': Database)
    requires PostingsOk(db) && Evolves(db, db')
    ensures PostingsOk(db')
    ensures forall o, g :: 0 <= o < |db.orders| ==> (GroupPosted(db', o, g) <==> GroupPosted(db, o, g))
  {
    forall key | key in db'.postings ensures PostingOk(db', key) {
      var p := db.postings[key];
      assert PostingOk(db, key);
      FullPlanStable(db.orders, db.allocations, db'.orders, db'.allocations, p.order, p.group);
    }
  }

  lemma EvolvesCalls(db: Database, db': Database, calls: seq<Call>)
    requires PostingsOk(db) && CallsOk(db, calls) && Evolves(db, db')
    ensures CallsOk(db', calls)
  {
    EvolvesPostings(db, db');
    forall c | 0 <= c < |calls| ensures CallOk(db', calls[c]) {
      var call := calls[c];
      assert CallOk(db, call);
      FullPlanStable(db.orders, db.allocations, db'.orders, db'.allocations, call.order, General);
      FullPlanStable(db.orders, db.allocations, db'.orders, db'.allocations, call.order, JobOutput);
    }
  }

  /** Nothing of an order that is not frozen has ever been posted. */
  lemma UnfrozenNotPosted(db: Database, o: Id, group: Group)
    requires PostingsOk(db) && o < |db.orders| && !Frozen(db.orders[o].status)
    ensures !GroupPosted(db, o, group)
  {
    var key := PostingKey(db.orders[o].documentNo, group);
    assert key in db.postings ==> PostingOk(db, key);
  }

  lemma EvolvesRowPosted(db: Database, db': Database, i: nat)
    requires RowsOk(db) && PostingsOk(db) && Evolves(db, db') && i < |db'.allocations|
    ensures RowPosted(db', db'.allocations[i]) <==> i < |db.allocations| && RowPosted(db, db.allocations[i])
  {
    EvolvesPostings(db, db');
    var a := db'.allocations[i];
    if i < |db.allocations| {
      assert SameRow(db.allocations[i], a) && RowOk(db, db.allocations[i]);
      assert OrderEvolves(db.orders[a.order], db'.orders[a.order]);
    } else {
      UnfrozenNotPosted(db, a.order, General);
      UnfrozenNotPosted(db, a.order, JobOutput);
    }
  }

  lemma EvolvesWeight(db: Database, db': Database, key: Key, i: nat)
    requires RowsOk(db) && PostingsOk(db) && Evolves(db, db') && i < |db'.allocations|
    ensures PostedWeights(db', key)[i] == if i < |db.allocations| then PostedWeights(db, key)[i] else 0
  {
    EvolvesRowPosted(db, db', i);
    if i < |db.allocations| { assert SameRow(db.allocations[i], db'.allocations[i]); }
  }

  lemma TotalExtended(w: seq<int>, w': seq<int>)
    requires |w| <= |w'| && forall i :: 0 <= i < |w'| ==> w'[i] == if i < |w| then w[i] else 0
    ensures Total(w') == Total(w)
  {
    assert w' == w + w'[|w|..];
    TotalConcat(w, w'[|w|..]);
    TotalZero(w'[|w|..]);
  }

  lemma EvolvesPostedAt(db: Database, db': Database, key: Key)
    requires RowsOk(db) && PostingsOk(db) && Evolves(db, db')
    ensures PostedAt(db', key) == PostedAt(db, key)
  {
    var w := PostedWeights(db, key);
    var w' := PostedWeights(db', key);
    forall i | 0 <= i < |w'| ensures w'[i] == if i < |w| then w[i] else 0 {
      EvolvesWeight(db, db', key, i);
    }
    TotalExtended(w, w');
  }

  lemma EvolvesConserved(s: System, db': Database)
    requires RowsOk(s.db) && PostingsOk(s.db) && Conserved(s) && Evolves(s.db, db')
    ensures Conserved(s.(db := db'))
  {
    forall k ensures PostedAt(db', k) == PostedAt(s.db, k) {
      EvolvesPostedAt(s.db, db', k);
    }
  }
}
