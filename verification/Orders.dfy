/**
 * Customer-order state and its transactions, as functions of the database
 * (src/modules/customer-orders/service.ts). Every transaction returns the committed database
 * or the error that rolled it back; rows are named by their position, so `orders[o]` is order
 * `o` and `allocations[a]` is allocation `a`.
 */
module Orders {
  import opened Common
  import opened Fefo

  datatype Status = Draft | Submitted | Approved | Allocated | InProduction | Ready | Fulfilled | Cancelled

  datatype Component = Component(item: Id, quantity: nat)

  /** Who owns a line's consumption; the three cases of the consumption-owner guard. */
  datatype Owner =
    | StockedOutput
    | ComponentSnapshot(components: seq<Component>)
    | JobOrder(job: Id)

  datatype Line = Line(item: Id, baseQuantity: nat, owner: Owner)

  datatype Order = Order(
    documentNo: string, status: Status, version: nat, lines: seq<Line>,
    submittedBy: Option<Id>, approvedBy: Option<Id>)

  datatype AllocationStatus = Active | Released | Consumed

  datatype Allocation = Allocation(order: Id, line: nat, key: Key, quantity: nat, status: AllocationStatus)

  /** The two postings a fulfilment may need. */
  datatype Group = General | JobOutput

  datatype Fulfilment = Fulfilment(order: Id, line: nat, quantity: nat, posting: string)

  /** One OUT movement; `allocation` travels in the posting line's metadata. */
  datatype Movement = Movement(allocation: Id, key: Key, quantity: nat)

  /**
   * A completed stock posting: the request it was made with, as its request hash pins it. `details`
   * is the rest of what the hash covers: each movement's unit cost and unit, the location, and the
   * order in which rows of one balance were read.
   */
  datatype Posting = Posting(group: Group, order: Id, movements: seq<Movement>, details: Id)

  datatype DocumentKey = DocumentKey(group: Group, documentNo: string)

  datatype DocumentStatus = Pending | Posted

  /** `postings` are those of customer orders; `foreign` are the keys that postings of other modules have taken. */
  datatype Database = Database(
    orders: seq<Order>,
    allocations: seq<Allocation>,
    fulfilments: seq<Fulfilment>,
    documents: map<DocumentKey, DocumentStatus>,
    postings: map<string, Posting>,
    foreign: set<string>,
    onHand: map<Key, int>)

  datatype Error =
    | NotFound | InvalidTransition | ConcurrentModification | Validation | SegregationOfDuties
    | InsufficientStock(shortBy: Option<nat>) | JobOrderNotReady | UniqueViolation
    | DocumentNotFound | IdempotencyKeyReused | NotEligible

  /** Where a line may draw from: the order's outlet nodes, or a job order's production warehouse. */
  datatype Source = Outlet(item: Id) | JobWarehouse(job: Id, item: Id)

  /**
   * What a transaction reads outside the order tables: the FEFO candidate rows per source (absent
   * when no eligible warehouse is configured), the job orders COMPLETED so far, and those with a
   * recorded output lot.
   */
  datatype StockView = StockView(candidates: map<Source, seq<Key>>, completedJobs: set<Id>, outputLots: set<Id>)

  const MAX_LINES := 100

  // ---------------------------------------------------------------------------
  // Lines and demands

  predicate ValidLine(line: Line) {
    && line.baseQuantity > 0
    && (line.owner.ComponentSnapshot? ==>
        && line.owner.components != []
        && forall c :: c in line.owner.components ==> c.quantity > 0)
  }

  predicate ValidLines(lines: seq<Line>) {
    0 < |lines| <= MAX_LINES && forall l :: l in lines ==> ValidLine(l)
  }

  function GroupOf(line: Line): Group {
    if line.owner.JobOrder? then JobOutput else General
  }

  /** The idempotency key, and document number, of one group's posting. */
  function PostingKey(documentNo: string, group: Group): string {
    if group == General then documentNo else documentNo + ":JOBOUT"
  }

  predicate SameJob(a: Line, b: Line) { a.owner.JobOrder? && b.owner.JobOrder? && a.owner.job == b.owner.job }

  /** The unique index on job orders: the new lines share no job with each other or with a line on file. */
  predicate JobsFree(orders: seq<Order>, lines: seq<Line>) {
    && (forall i, j :: 0 <= i < j < |lines| ==> !SameJob(lines[i], lines[j]))
    && (forall o, ell, i :: 0 <= o < |orders| && 0 <= ell < |orders[o].lines| && 0 <= i < |lines| ==>
          !SameJob(orders[o].lines[ell], lines[i]))
  }

  // ---------------------------------------------------------------------------
  // Create, update, submit, approve

  function CreateDraft(db: Database, documentNo: string, lines: seq<Line>): Result<Database, Error> {
    if !ValidLines(lines) then Err(Validation)
    else if exists o :: o in db.orders && o.documentNo == documentNo then Err(Validation)
    else if !JobsFree(db.orders, lines) then Err(UniqueViolation)
    else Ok(db.(orders := db.orders + [Order(documentNo, Draft, 1, lines, None, None)]))
  }

  /** The status and optimistic-version guard every transition starts with. */
  function Guard(db: Database, o: Id, from: set<Status>, version: nat): Result<Order, Error> {
    if o >= |db.orders| then Err(NotFound)
    else if db.orders[o].status !in from then Err(InvalidTransition)
    else if db.orders[o].version != version then Err(ConcurrentModification)
    else Ok(db.orders[o])
  }

  function Replace(db: Database, o: Id, order: Order): Database
    requires o < |db.orders|
  {
    db.(orders := db.orders[o := order.(version := order.version + 1)])
  }

  /** An edit deletes the order's lines before it inserts the new ones. */
  function UpdateDraft(db: Database, o: Id, version: nat, lines: Option<seq<Line>>): Result<Database, Error> {
    var g := Guard(db, o, {Draft}, version);
    if g.Err? then Err(g.error)
    else if lines.Some? && !ValidLines(lines.value) then Err(Validation)
    else if lines.Some? && !JobsFree(db.orders[o := g.value.(lines := [])], lines.value) then Err(UniqueViolation)
    else Ok(Replace(db, o, if lines.Some? then g.value.(lines := lines.value) else g.value))
  }

  function Submit(db: Database, o: Id, version: nat, actor: Id): Result<Database, Error> {
    var g := Guard(db, o, {Draft}, version);
    if g.Err? then Err(g.error)
    else if g.value.lines == [] then Err(Validation)
    else Ok(Replace(db, o, g.value.(status := Submitted, submittedBy := Some(actor))))
  }

  function Approve(db: Database, o: Id, version: nat, actor: Id): Result<Database, Error> {
    var g := Guard(db, o, {Submitted}, version);
    if g.Err? then Err(g.error)
    else if g.value.submittedBy == Some(actor) then Err(SegregationOfDuties)
    else Ok(Replace(db, o, g.value.(status := Approved, approvedBy := Some(actor))))
  }

  // ---------------------------------------------------------------------------
  // Allocate, mark in production, mark ready

  /** Sum of the ACTIVE reservations against one balance row, across every order and line. */
  function Reserved(allocations: seq<Allocation>, key: Key): nat {
    if allocations == [] then 0 else
      var n := |allocations| - 1;
      Reserved(allocations[..n], key)
      + (if allocations[n].status == Active && allocations[n].key == key then allocations[n].quantity else 0)
  }

  /** On-hand minus reservations for each candidate row. */
  function Availability(onHand: map<Key, int>, allocations: seq<Allocation>, keys: seq<Key>): (a: seq<int>)
    ensures |a| == |keys|
  {
    seq(|keys|, i requires 0 <= i < |keys| => Lookup(onHand, keys[i]) - Reserved(allocations, keys[i]))
  }

  /** The partial unique index: at most one ACTIVE row per (line, lot). */
  predicate Claimed(allocations: seq<Allocation>, o: Id, line: nat, lot: Lot) {
    exists i :: 0 <= i < |allocations| && allocations[i].status == Active && allocations[i].order == o
      && allocations[i].line == line && allocations[i].key.lot == lot
  }

  function Insert(allocations: seq<Allocation>, o: Id, line: nat, p: Portion): Result<seq<Allocation>, Error> {
    if Claimed(allocations, o, line, p.key.lot) then Err(UniqueViolation)
    else Ok(allocations + [Allocation(o, line, p.key, p.quantity, Active)])
  }

  function InsertAll(allocations: seq<Allocation>, o: Id, line: nat,
      portions: seq<Portion>): Result<seq<Allocation>, Error> {
    if portions == [] then Ok(allocations) else
      var n := |portions| - 1;
      var before := InsertAll(allocations, o, line, portions[..n]);
      if before.Err? then before else Insert(before.value, o, line, portions[n])
  }

  function SelectionError(e: SelectError): Error {
    match e
    case NoWarehouse => Validation
    case NoCandidate => InsufficientStock(None)
    case ShortBy(q) => InsufficientStock(Some(q))
  }

  /** FEFO-allocates `need` of one item from one source, writing ACTIVE rows. */
  function AllocateItem(onHand: map<Key, int>, allocations: seq<Allocation>, o: Id, line: nat, source: Source,
      need: nat, view: StockView)
    : Result<seq<Allocation>, Error>
  {
    var keys := if source in view.candidates then view.candidates[source] else [];
    var picked := Select(source in view.candidates, keys, Availability(onHand, allocations, keys), need);
    if picked.Err? then Err(SelectionError(picked.error))
    else InsertAll(allocations, o, line, picked.value)
  }

  function AllocateComponents(onHand: map<Key, int>, allocations: seq<Allocation>, o: Id, line: nat,
      components: seq<Component>, view: StockView)
    : Result<seq<Allocation>, Error>
  {
    if components == [] then Ok(allocations) else
      var n := |components| - 1;
      var before := AllocateComponents(onHand, allocations, o, line, components[..n], view);
      if before.Err? then before
      else AllocateItem(onHand, before.value, o, line, Outlet(components[n].item), components[n].quantity, view)
  }

  function AllocateJobOutput(onHand: map<Key, int>, allocations: seq<Allocation>, o: Id, ell: nat, line: Line,
      view: StockView)
    : Result<seq<Allocation>, Error>
    requires line.owner.JobOrder?
  {
    if line.owner.job !in view.outputLots then Err(JobOrderNotReady)
    else AllocateItem(onHand, allocations, o, ell, JobWarehouse(line.owner.job, line.item), line.baseQuantity, view)
  }

  /** One line at allocate(): job-order lines wait until their job order is COMPLETED. */
  function AllocateLine(onHand: map<Key, int>, allocations: seq<Allocation>, o: Id, ell: nat, line: Line,
      view: StockView)
    : Result<seq<Allocation>, Error>
  {
    match line.owner
    case StockedOutput => AllocateItem(onHand, allocations, o, ell, Outlet(line.item), line.baseQuantity, view)
    case JobOrder(job) =>
      if job in view.completedJobs then AllocateJobOutput(onHand, allocations, o, ell, line, view) else Ok(allocations)
    case ComponentSnapshot(components) =>
      if components == [] then Err(Validation)
      else AllocateComponents(onHand, allocations, o, ell, components, view)
  }

  function AllocateLines(onHand: map<Key, int>, allocations: seq<Allocation>, o: Id, lines: seq<Line>, view: StockView)
    : Result<seq<Allocation>, Error>
  {
    if lines == [] then Ok(allocations) else
      var n := |lines| - 1;
      var before := AllocateLines(onHand, allocations, o, lines[..n], view);
      if before.Err? then before else AllocateLine(onHand, before.value, o, n, lines[n], view)
  }

  function Allocate(db: Database, o: Id, version: nat, view: StockView): Result<Database, Error> {
    if o < |db.orders| && db.orders[o].status == Allocated then Ok(db)
    else
      var g := Guard(db, o, {Approved}, version);
      if g.Err? then Err(g.error)
      else if g.value.lines == [] then Err(Validation)
      else
        var rows := AllocateLines(db.onHand, db.allocations, o, g.value.lines, view);
        if rows.Err? then Err(rows.error)
        else Ok(Replace(db, o, g.value.(status := Allocated)).(allocations := rows.value))
  }

  function MarkInProduction(db: Database, o: Id, version: nat): Result<Database, Error> {
    if o < |db.orders| && db.orders[o].status == InProduction then Ok(db)
    else
      var g := Guard(db, o, {Allocated}, version);
      if g.Err? then Err(g.error)
      else if !exists l :: l in g.value.lines && l.owner.JobOrder? then Err(InvalidTransition)
      else Ok(Replace(db, o, g.value.(status := InProduction)))
  }

  predicate HasActive(allocations: seq<Allocation>, o: Id, line: nat) {
    exists i :: 0 <= i < |allocations| && allocations[i].status == Active && allocations[i].order == o &&
      allocations[i].line == line
  }

  /** One line at markReady(): allocate a deferred job-order line, insist on rows for the others. */
  function ReadyLine(onHand: map<Key, int>, allocations: seq<Allocation>, o: Id, ell: nat, line: Line, view: StockView)
    : Result<seq<Allocation>, Error>
  {
    if HasActive(allocations, o, ell) then Ok(allocations)
    else if !line.owner.JobOrder? then Err(Validation)
    else if line.owner.job !in view.completedJobs then Err(JobOrderNotReady)
    else AllocateJobOutput(onHand, allocations, o, ell, line, view)
  }

  function ReadyLines(onHand: map<Key, int>, allocations: seq<Allocation>, o: Id, lines: seq<Line>, view: StockView)
    : Result<seq<Allocation>, Error>
  {
    if lines == [] then Ok(allocations) else
      var n := |lines| - 1;
      var before := ReadyLines(onHand, allocations, o, lines[..n], view);
      if before.Err? then before else ReadyLine(onHand, before.value, o, n, lines[n], view)
  }

  function MarkReady(db: Database, o: Id, version: nat, view: StockView): Result<Database, Error> {
    if o < |db.orders| && db.orders[o].status == Ready then Ok(db)
    else
      var g := Guard(db, o, {Allocated, InProduction}, version);
      if g.Err? then Err(g.error)
      else
        var rows := ReadyLines(db.onHand, db.allocations, o, g.value.lines, view);
        if rows.Err? then Err(rows.error)
        else Ok(Replace(db, o, g.value.(status := Ready)).(allocations := rows.value))
  }

  // ---------------------------------------------------------------------------
  // Cancel

  function ReleaseAll(allocations: seq<Allocation>, o: Id): (r: seq<Allocation>)
    ensures |r| == |allocations|
  {
    seq(|allocations|, i requires 0 <= i < |allocations| =>
      if allocations[i].order == o && allocations[i].status == Active
      then allocations[i].(status := Released) else allocations[i])
  }

  function Cancel(db: Database, o: Id, version: nat, reasonGiven: bool): Result<Database, Error> {
    if o >= |db.orders| then Err(NotFound)
    else if !reasonGiven then Err(Validation)
    else
      var g := Guard(db, o, {Draft, Submitted, Approved, Allocated, InProduction, Ready}, version);
      if g.Err? then Err(g.error)
      else Ok(Replace(db, o, g.value.(status := Cancelled)).(allocations := ReleaseAll(db.allocations, o)))
  }

  // ---------------------------------------------------------------------------
  // Fulfil: prepare, post, finalize

  /** The movement plan of one group over the first rows of the allocation table. */
  function Plan(orders: seq<Order>, allocations: seq<Allocation>, o: Id, group: Group): seq<Movement>
    requires o < |orders|
  {
    if allocations == [] then [] else
      var n := |allocations| - 1;
      var before := Plan(orders, allocations[..n], o, group);
      if InPlan(orders, allocations[n], o, group)
      then before + [Movement(n, allocations[n].key, allocations[n].quantity)]
      else before
  }

  predicate InPlan(orders: seq<Order>, a: Allocation, o: Id, group: Group)
    requires o < |orders|
  {
    a.status == Active && a.order == o && a.line < |orders[o].lines| && GroupOf(orders[o].lines[a.line]) == group
  }

  datatype Prepared = Replay | Planned(general: seq<Movement>, job: seq<Movement>)

  /** Insert-or-fetch of an operational document. */
  function EnsureDocument(documents: map<DocumentKey, DocumentStatus>, group: Group, documentNo: string, needed: bool)
    : map<DocumentKey, DocumentStatus>
  {
    var key := DocumentKey(group, documentNo);
    if !needed || key in documents then documents else documents[key := Pending]
  }

  function Prepare(db: Database, o: Id, version: nat): Result<(Database, Prepared), Error> {
    if o < |db.orders| && db.orders[o].status == Fulfilled then Ok((db, Replay))
    else
      var g := Guard(db, o, {Ready}, version);
      if g.Err? then Err(g.error)
      else
        var general := Plan(db.orders, db.allocations, o, General);
        var job := Plan(db.orders, db.allocations, o, JobOutput);
        if general == [] && job == [] then Err(Validation)
        else
          var documentNo := g.value.documentNo;
          var d1 := EnsureDocument(db.documents, General, PostingKey(documentNo, General), general != []);
          var d2 := EnsureDocument(d1, JobOutput, PostingKey(documentNo, JobOutput), job != []);
          Ok((db.(documents := d2), Planned(general, job)))
  }

  /** The posting service's running balance check; None as soon as a balance would go negative. */
  function Withdraw(onHand: map<Key, int>, movements: seq<Movement>): Option<map<Key, int>> {
    if movements == [] then Some(onHand) else
      var n := |movements| - 1;
      var before := Withdraw(onHand, movements[..n]);
      if before.None? then None
      else
        var m := movements[n];
        if m.key !in before.value || before.value[m.key] < m.quantity then None
        else Some(before.value[m.key := before.value[m.key] - m.quantity])
  }

  /**
   * The central posting service: one posting per idempotency key, replayed when the request is
   * the same and refused when it is not; otherwise it moves the stock and advances the document.
   * `eligible` is the outcome of its checks of route, items, units and lots for a new posting.
   */
  function Post(db: Database, key: string, posting: Posting, eligible: bool): Result<Database, Error> {
    var document := DocumentKey(posting.group, key);
    if document !in db.documents then Err(DocumentNotFound)
    else if key in db.postings then
      if db.postings[key] == posting then Ok(db) else Err(IdempotencyKeyReused)
    else if key in db.foreign then Err(IdempotencyKeyReused)
    else if db.documents[document] != Pending then Err(InvalidTransition)
    else if !eligible then Err(NotEligible)
    else
      var after := Withdraw(db.onHand, posting.movements);
      if after.None? then Err(InsufficientStock(None))
      else Ok(db.(onHand := after.value, postings := db.postings[key := posting],
        documents := db.documents[document := Posted]))
  }

  /** Another module posts under a key of its own choosing; the unique index lets it have a free one. */
  function TakeKey(db: Database, key: string): Database {
    if key in db.postings then db else db.(foreign := db.foreign + {key})
  }

  /** Compensation after a failed posting: a document goes only while it is still untouched. */
  function DropDocument(documents: map<DocumentKey, DocumentStatus>,
      document: DocumentKey): map<DocumentKey, DocumentStatus> {
    if document in documents && documents[document] == Pending then documents - {document} else documents
  }

  /** The posting, among the given keys, whose lines carry this allocation. */
  function ResolvePosting(db: Database, general: Option<string>, job: Option<string>, allocation: Id): Option<string> {
    if job.Some? && job.value in db.postings && Carries(db.postings[job.value].movements, allocation) then job
    else if general.Some? && general.value in db.postings && Carries(db.postings[general.value].movements, allocation)
      then general
    else None
  }

  predicate Carries(movements: seq<Movement>, allocation: Id) {
    exists i :: 0 <= i < |movements| && movements[i].allocation == allocation
  }

  /** The allocation rows and fulfilment history part-way through finalize. */
  datatype Ledger = Ledger(allocations: seq<Allocation>, fulfilments: seq<Fulfilment>)

  /** Consume one movement: flip a still-ACTIVE row and append its history row, else do nothing. */
  function ConsumeOne(l: Ledger, m: Movement, posting: string): Ledger {
    if m.allocation < |l.allocations| && l.allocations[m.allocation].status == Active then
      var a := l.allocations[m.allocation];
      Ledger(l.allocations[m.allocation := a.(status := Consumed)],
             l.fulfilments + [Fulfilment(a.order, a.line, m.quantity, posting)])
    else l
  }

  function ConsumeAll(db: Database, general: Option<string>, job: Option<string>,
      movements: seq<Movement>): Result<Ledger, Error> {
    if movements == [] then Ok(Ledger(db.allocations, db.fulfilments)) else
      var n := |movements| - 1;
      var before := ConsumeAll(db, general, job, movements[..n]);
      if before.Err? then before
      else
        var posting := ResolvePosting(db, general, job, movements[n].allocation);
        if posting.None? then Err(ConcurrentModification)
        else Ok(ConsumeOne(before.value, movements[n], posting.value))
  }

  /** Finalize: consume the plan, then advance the order; a lost race is a replay or an error. */
  function Finalize(db: Database, o: Id, version: nat, general: seq<Movement>,
      job: seq<Movement>): Result<Database, Error>
    requires o < |db.orders|
  {
    var order := db.orders[o];
    var generalKey := if general != [] then Some(PostingKey(order.documentNo, General)) else None;
    var jobKey := if job != [] then Some(PostingKey(order.documentNo, JobOutput)) else None;
    var ledger := ConsumeAll(db, generalKey, jobKey, general + job);
    if ledger.Err? then Err(ledger.error)
    else
      var after := db.(allocations := ledger.value.allocations, fulfilments := ledger.value.fulfilments);
      if order.status == Ready && order.version == version then Ok(Replace(after, o, order.(status := Fulfilled)))
      else if order.status == Fulfilled then Ok(after)
      else Err(ConcurrentModification)
  }
}
