/**
 * The order service as it runs: tables updated row by row inside a transaction that is rolled back
 * on error. Every method is proved equal to its transaction in module Orders, so what is proved of
 * runs there holds of these loops.
 */
module OrderService {
  import opened Common
  import opened Fefo
  import opened Orders

  function After(before: Database, r: Result<Database, Error>): Database {
    if r.Ok? then r.value else before
  }

  function Failure<V>(r: Result<V, Error>): Option<Error> {
    if r.Err? then Some(r.error) else None
  }

  /** The reservation sums the source accumulates in `reservedByKey`. */
  method SumReservations(rows: seq<Allocation>) returns (reserved: map<Key, int>)
    ensures forall k :: Lookup(reserved, k) == Reserved(rows, k)
  {
    reserved := map[];
    var i := 0;
    while i < |rows|
      invariant 0 <= i <= |rows|
      invariant forall k :: Lookup(reserved, k) == Reserved(rows[..i], k)
    {
      assert rows[..i + 1][..i] == rows[..i];
      if rows[i].status == Active {
        reserved := reserved[rows[i].key := Lookup(reserved, rows[i].key) + rows[i].quantity];
      }
      i := i + 1;
    }
    assert rows[..i] == rows;
  }

  class OrderTables {
    var orders: seq<Order>
    var allocations: seq<Allocation>
    var fulfilments: seq<Fulfilment>
    var documents: map<DocumentKey, DocumentStatus>
    var postings: map<string, Posting>
    var foreign: set<string>
    var onHand: map<Key, int>

    function State(): Database
      reads this
    {
      Database(orders, allocations, fulfilments, documents, postings, foreign, onHand)
    }

    constructor (stock: map<Key, int>)
      ensures State() == Database([], [], [], map[], map[], {}, stock)
    {
      orders, allocations, fulfilments := [], [], [];
      documents, postings, foreign, onHand := map[], map[], {}, stock;
    }

    method CreateDraft(documentNo: string, lines: seq<Line>) returns (e: Option<Error>)
      modifies this
      ensures State() == After(old(State()), Orders.CreateDraft(old(State()), documentNo, lines))
      ensures e == Failure(Orders.CreateDraft(old(State()), documentNo, lines))
    {
      if !ValidLines(lines) { return Some(Validation); }
      var i := 0;
      while i < |orders|
        invariant 0 <= i <= |orders|
        invariant forall j :: 0 <= j < i ==> orders[j].documentNo != documentNo
      {
        if orders[i].documentNo == documentNo {
          assert orders[i] in orders;
          return Some(Validation);
        }
        i := i + 1;
      }
      if !JobsFree(orders, lines) { return Some(UniqueViolation); }
      orders := orders + [Order(documentNo, Draft, 1, lines, None, None)];
      return None;
    }

    /** Advance one order: its new fields and the next version in one guarded update. */
    method Write(o: Id, order: Order)
      requires o < |orders|
      modifies this`orders
      ensures State() == Replace(old(State()), o, order)
    {
      orders := orders[o := order.(version := order.version + 1)];
    }

    method UpdateDraft(o: Id, version: nat, lines: Option<seq<Line>>) returns (e: Option<Error>)
      modifies this
      ensures State() == After(old(State()), Orders.UpdateDraft(old(State()), o, version, lines))
      ensures e == Failure(Orders.UpdateDraft(old(State()), o, version, lines))
    {
      var g := Guard(State(), o, {Draft}, version);
      if g.Err? { return Some(g.error); }
      if lines.Some? && !ValidLines(lines.value) { return Some(Validation); }
      if lines.Some? && !JobsFree(orders[o := g.value.(lines := [])], lines.value) { return Some(UniqueViolation); }
      Write(o, if lines.Some? then g.value.(lines := lines.value) else g.value);
      return None;
    }

    method Submit(o: Id, version: nat, actor: Id) returns (e: Option<Error>)
      modifies this
      ensures State() == After(old(State()), Orders.Submit(old(State()), o, version, actor))
      ensures e == Failure(Orders.Submit(old(State()), o, version, actor))
    {
      var g := Guard(State(), o, {Draft}, version);
      if g.Err? { return Some(g.error); }
      if |g.value.lines| == 0 { return Some(Validation); }
      Write(o, g.value.(status := Submitted, submittedBy := Some(actor)));
      return None;
    }

    method Approve(o: Id, version: nat, actor: Id) returns (e: Option<Error>)
      modifies this
      ensures State() == After(old(State()), Orders.Approve(old(State()), o, version, actor))
      ensures e == Failure(Orders.Approve(old(State()), o, version, actor))
    {
      var g := Guard(State(), o, {Submitted}, version);
      if g.Err? { return Some(g.error); }
      if g.value.submittedBy == Some(actor) { return Some(SegregationOfDuties); }
      Write(o, g.value.(status := Approved, approvedBy := Some(actor)));
      return None;
    }

    // -------------------------------------------------------------------------
    // Allocation

    /** The unique-index probe of an insert. */
    method IsClaimed(o: Id, line: nat, lot: Lot) returns (claimed: bool)
      ensures claimed == Claimed(allocations, o, line, lot)
    {
      var i := 0;
      while i < |allocations|
        invariant 0 <= i <= |allocations|
        invariant forall j :: 0 <= j < i ==>
          !(allocations[j].status == Active && allocations[j].order == o && allocations[j].line == line &&
            allocations[j].key.lot == lot)
      {
        if allocations[i].status == Active && allocations[i].order == o && allocations[i].line == line &&
            allocations[i].key.lot == lot {
          return true;
        }
        i := i + 1;
      }
      return false;
    }

    method InsertPortions(o: Id, line: nat, portions: seq<Portion>) returns (e: Option<Error>)
      modifies this`allocations
      ensures e == Failure(InsertAll(old(allocations), o, line, portions))
      ensures e.None? ==> Ok(allocations) == InsertAll(old(allocations), o, line, portions)
    {
      var i := 0;
      while i < |portions|
        invariant 0 <= i <= |portions|
        invariant InsertAll(old(allocations), o, line, portions[..i]) == Ok(allocations)
      {
        assert portions[..i + 1][..i] == portions[..i];
        var claimed := IsClaimed(o, line, portions[i].key.lot);
        if claimed {
          InsertFails(old(allocations), o, line, portions, i);
          return Some(UniqueViolation);
        }
        allocations := allocations + [Allocation(o, line, portions[i].key, portions[i].quantity, Active)];
        i := i + 1;
      }
      assert portions[..i] == portions;
      return None;
    }

    method AllocateItem(o: Id, line: nat, source: Source, need: nat, view: StockView) returns (e: Option<Error>)
      modifies this`allocations
      ensures e == Failure(Orders.AllocateItem(onHand, old(allocations), o, line, source, need, view))
      ensures e.None? ==> Ok(allocations) == Orders.AllocateItem(onHand, old(allocations), o, line, source, need, view)
    {
      var keys := if source in view.candidates then view.candidates[source] else [];
      var reserved := SumReservations(allocations);
      var picked := SelectPortions(source in view.candidates, keys, onHand, reserved, need);
      assert Available(keys, onHand, reserved) == Availability(onHand, allocations, keys);
      if picked.Err? { return Some(SelectionError(picked.error)); }
      e := InsertPortions(o, line, picked.value);
    }

    method AllocateComponents(o: Id, line: nat, components: seq<Component>, view: StockView) returns (e: Option<Error>)
      modifies this`allocations
      ensures e == Failure(Orders.AllocateComponents(onHand, old(allocations), o, line, components, view))
      ensures e.None? ==>
        Ok(allocations) == Orders.AllocateComponents(onHand, old(allocations), o, line, components, view)
    {
      var i := 0;
      while i < |components|
        invariant 0 <= i <= |components|
        invariant Orders.AllocateComponents(onHand, old(allocations), o, line, components[..i], view) == Ok(allocations)
      {
        assert components[..i + 1][..i] == components[..i];
        e := AllocateItem(o, line, Outlet(components[i].item), components[i].quantity, view);
        if e.Some? {
          ComponentsFail(onHand, old(allocations), o, line, components, i, view);
          return e;
        }
        i := i + 1;
      }
      assert components[..i] == components;
      return None;
    }

    method AllocateJobOutput(o: Id, ell: nat, line: Line, view: StockView) returns (e: Option<Error>)
      requires line.owner.JobOrder?
      modifies this`allocations
      ensures e == Failure(Orders.AllocateJobOutput(onHand, old(allocations), o, ell, line, view))
      ensures e.None? ==> Ok(allocations) == Orders.AllocateJobOutput(onHand, old(allocations), o, ell, line, view)
    {
      if line.owner.job !in view.outputLots { return Some(JobOrderNotReady); }
      e := AllocateItem(o, ell, JobWarehouse(line.owner.job, line.item), line.baseQuantity, view);
    }

    method AllocateLine(o: Id, ell: nat, line: Line, view: StockView) returns (e: Option<Error>)
      modifies this`allocations
      ensures e == Failure(Orders.AllocateLine(onHand, old(allocations), o, ell, line, view))
      ensures e.None? ==> Ok(allocations) == Orders.AllocateLine(onHand, old(allocations), o, ell, line, view)
    {
      match line.owner
      case StockedOutput => e := AllocateItem(o, ell, Outlet(line.item), line.baseQuantity, view);
      case JobOrder(job) =>
        if job in view.completedJobs {
          e := AllocateJobOutput(o, ell, line, view);
        } else {
          e := None;
        }
      case ComponentSnapshot(components) =>
        if |components| == 0 { return Some(Validation); }
        e := AllocateComponents(o, ell, components, view);
    }

    method Allocate(o: Id, version: nat, view: StockView) returns (e: Option<Error>)
      modifies this
      ensures State() == After(old(State()), Orders.Allocate(old(State()), o, version, view))
      ensures e == Failure(Orders.Allocate(old(State()), o, version, view))
    {
      if o < |orders| && orders[o].status == Allocated { return None; }
      var g := Guard(State(), o, {Approved}, version);
      if g.Err? { return Some(g.error); }
      var lines := g.value.lines;
      if |lines| == 0 { return Some(Validation); }
      var savepoint := allocations;
      var i := 0;
      while i < |lines|
        invariant 0 <= i <= |lines|
        invariant Orders.AllocateLines(onHand, savepoint, o, lines[..i], view) == Ok(allocations)
        invariant State() == old(State()).(allocations := allocations)
      {
        assert lines[..i + 1][..i] == lines[..i];
        e := AllocateLine(o, i, lines[i], view);
        if e.Some? {
          LinesFail(onHand, savepoint, o, lines, i, view);
          allocations := savepoint;
          return e;
        }
        i := i + 1;
      }
      assert lines[..i] == lines;
      Write(o, g.value.(status := Allocated));
      return None;
    }

    method MarkInProduction(o: Id, version: nat) returns (e: Option<Error>)
      modifies this
      ensures State() == After(old(State()), Orders.MarkInProduction(old(State()), o, version))
      ensures e == Failure(Orders.MarkInProduction(old(State()), o, version))
    {
      if o < |orders| && orders[o].status == InProduction { return None; }
      var g := Guard(State(), o, {Allocated}, version);
      if g.Err? { return Some(g.error); }
      var i := 0;
      while i < |g.value.lines| && !g.value.lines[i].owner.JobOrder?
        invariant 0 <= i <= |g.value.lines|
        invariant forall j :: 0 <= j < i ==> !g.value.lines[j].owner.JobOrder?
      {
        i := i + 1;
      }
      if i == |g.value.lines| { return Some(InvalidTransition); }
      assert g.value.lines[i] in g.value.lines;
      Write(o, g.value.(status := InProduction));
      return None;
    }

    method FindActive(o: Id, line: nat) returns (found: bool)
      ensures found == HasActive(allocations, o, line)
    {
      var i := 0;
      while i < |allocations|
        invariant 0 <= i <= |allocations|
        invariant forall j :: 0 <= j < i ==>
          !(allocations[j].status == Active && allocations[j].order == o && allocations[j].line == line)
      {
        if allocations[i].status == Active && allocations[i].order == o && allocations[i].line == line { return true; }
        i := i + 1;
      }
      return false;
    }

    /** The line loop of mark-ready; on an error the caller rolls back. */
    method ReadyAllLines(o: Id, lines: seq<Line>, view: StockView) returns (e: Option<Error>)
      modifies this`allocations
      ensures e == Failure(Orders.ReadyLines(onHand, old(allocations), o, lines, view))
      ensures e.None? ==> Orders.ReadyLines(onHand, old(allocations), o, lines, view) == Ok(allocations)
    {
      var i := 0;
      while i < |lines|
        invariant 0 <= i <= |lines|
        invariant Orders.ReadyLines(onHand, old(allocations), o, lines[..i], view) == Ok(allocations)
      {
        assert lines[..i + 1][..i] == lines[..i];
        e := ReadyOneLine(o, i, lines[i], view);
        if e.Some? {
          ReadyFails(onHand, old(allocations), o, lines, i, view);
          return e;
        }
        i := i + 1;
      }
      assert lines[..i] == lines;
      return None;
    }

    method MarkReady(o: Id, version: nat, view: StockView) returns (e: Option<Error>)
      modifies this
      ensures State() == After(old(State()), Orders.MarkReady(old(State()), o, version, view))
      ensures e == Failure(Orders.MarkReady(old(State()), o, version, view))
    {
      if o < |orders| && orders[o].status == Ready { return None; }
      var g := Guard(State(), o, {Allocated, InProduction}, version);
      if g.Err? { return Some(g.error); }
      var savepoint := allocations;
      e := ReadyAllLines(o, g.value.lines, view);
      if e.Some? {
        allocations := savepoint;
        return e;
      }
      Write(o, g.value.(status := Ready));
    }


    method ReadyOneLine(o: Id, ell: nat, line: Line, view: StockView) returns (e: Option<Error>)
      modifies this`allocations
      ensures e == Failure(Orders.ReadyLine(onHand, old(allocations), o, ell, line, view))
      ensures e.None? ==> Ok(allocations) == Orders.ReadyLine(onHand, old(allocations), o, ell, line, view)
    {
      var active := FindActive(o, ell);
      if active { return None; }
      if !line.owner.JobOrder? { return Some(Validation); }
      if line.owner.job !in view.completedJobs { return Some(JobOrderNotReady); }
      e := AllocateJobOutput(o, ell, line, view);
    }

    // -------------------------------------------------------------------------
    // Cancel

    method Cancel(o: Id, version: nat, reasonGiven: bool) returns (e: Option<Error>)
      modifies this
      ensures State() == After(old(State()), Orders.Cancel(old(State()), o, version, reasonGiven))
      ensures e == Failure(Orders.Cancel(old(State()), o, version, reasonGiven))
    {
      if o >= |orders| { return Some(NotFound); }
      if !reasonGiven { return Some(Validation); }
      var g := Guard(State(), o, {Draft, Submitted, Approved, Allocated, InProduction, Ready}, version);
      if g.Err? { return Some(g.error); }
      var i := 0;
      while i < |allocations|
        invariant 0 <= i <= |allocations| == |old(allocations)|
        invariant allocations[..i] == ReleaseAll(old(allocations), o)[..i]
        invariant allocations[i..] == old(allocations)[i..]
        invariant State() == old(State()).(allocations := allocations)
      {
        assert allocations[i] == old(allocations)[i];
        if allocations[i].order == o && allocations[i].status == Active {
          allocations := allocations[i := allocations[i].(status := Released)];
        }
        i := i + 1;
      }
      Write(o, g.value.(status := Cancelled));
      return None;
    }

    // -------------------------------------------------------------------------
    // Fulfil

    method BuildPlan(o: Id, group: Group) returns (plan: seq<Movement>)
      requires o < |orders|
      ensures plan == Plan(orders, allocations, o, group)
    {
      plan := [];
      var i := 0;
      while i < |allocations|
        invariant 0 <= i <= |allocations|
        invariant plan == Plan(orders, allocations[..i], o, group)
      {
        assert allocations[..i + 1][..i] == allocations[..i];
        if InPlan(orders, allocations[i], o, group) {
          plan := plan + [Movement(i, allocations[i].key, allocations[i].quantity)];
        }
        i := i + 1;
      }
      assert allocations[..i] == allocations;
    }

    method Prepare(o: Id, version: nat) returns (r: Result<Prepared, Error>)
      modifies this
      ensures var t := Orders.Prepare(old(State()), o, version);
        && (t.Ok? ==> State() == t.value.0 && r == Ok(t.value.1))
        && (t.Err? ==> State() == old(State()) && r == Err(t.error))
    {
      if o < |orders| && orders[o].status == Fulfilled { return Ok(Replay); }
      var g := Guard(State(), o, {Ready}, version);
      if g.Err? { return Err(g.error); }
      var general := BuildPlan(o, General);
      var job := BuildPlan(o, JobOutput);
      if |general| == 0 && |job| == 0 { return Err(Validation); }
      if |general| > 0 && DocumentKey(General, PostingKey(g.value.documentNo, General)) !in documents {
        documents := documents[DocumentKey(General, PostingKey(g.value.documentNo, General)) := Pending];
      }
      if |job| > 0 && DocumentKey(JobOutput, PostingKey(g.value.documentNo, JobOutput)) !in documents {
        documents := documents[DocumentKey(JobOutput, PostingKey(g.value.documentNo, JobOutput)) := Pending];
      }
      return Ok(Planned(general, job));
    }

    /** The posting service: every balance is checked as the movements are applied in order. */
    method Post(key: string, posting: Posting, eligible: bool) returns (e: Option<Error>)
      modifies this
      ensures State() == After(old(State()), Orders.Post(old(State()), key, posting, eligible))
      ensures e == Failure(Orders.Post(old(State()), key, posting, eligible))
    {
      var document := DocumentKey(posting.group, key);
      if document !in documents { return Some(DocumentNotFound); }
      if key in postings {
        return if postings[key] == posting then None else Some(IdempotencyKeyReused);
      }
      if key in foreign { return Some(IdempotencyKeyReused); }
      if documents[document] != Pending { return Some(InvalidTransition); }
      if !eligible { return Some(NotEligible); }
      var after := onHand;
      var i := 0;
      while i < |posting.movements|
        invariant 0 <= i <= |posting.movements|
        invariant Withdraw(onHand, posting.movements[..i]) == Some(after)
        invariant State() == old(State())
      {
        var m := posting.movements[i];
        assert posting.movements[..i + 1][..i] == posting.movements[..i];
        if m.key !in after || after[m.key] < m.quantity {
          WithdrawFails(onHand, posting.movements, i);
          return Some(InsufficientStock(None));
        }
        after := after[m.key := after[m.key] - m.quantity];
        i := i + 1;
      }
      assert posting.movements[..i] == posting.movements;
      onHand, postings := after, postings[key := posting];
      documents := documents[document := Posted];
      return None;
    }

    /** The consume loop: flip a still-ACTIVE row and append its history row, movement by movement. */
    method ConsumePlan(general: Option<string>, job: Option<string>, movements: seq<Movement>)
        returns (e: Option<Error>)
      modifies this`allocations, this`fulfilments
      ensures e == Failure(ConsumeAll(old(State()), general, job, movements))
      ensures e.None? ==> ConsumeAll(old(State()), general, job, movements) == Ok(Ledger(allocations, fulfilments))
    {
      ghost var before := State();
      var i := 0;
      while i < |movements|
        invariant 0 <= i <= |movements|
        invariant ConsumeAll(before, general, job, movements[..i]) == Ok(Ledger(allocations, fulfilments))
      {
        assert movements[..i + 1][..i] == movements[..i];
        ResolvingReads(before, State(), general, job, movements[i].allocation);
        var posting := ResolvePosting(State(), general, job, movements[i].allocation);
        if posting.None? {
          ConsumeFails(before, general, job, movements, i);
          return Some(ConcurrentModification);
        }
        var a := movements[i].allocation;
        if a < |allocations| && allocations[a].status == Active {
          fulfilments := fulfilments +
            [Orders.Fulfilment(allocations[a].order, allocations[a].line, movements[i].quantity, posting.value)];
          allocations := allocations[a := allocations[a].(status := Consumed)];
        }
        i := i + 1;
      }
      assert movements[..i] == movements;
      return None;
    }

    /** Finalize: consume the plan, then advance the order or roll everything back. */
    method Finalize(o: Id, version: nat, general: seq<Movement>, job: seq<Movement>) returns (e: Option<Error>)
      requires o < |orders|
      modifies this
      ensures State() == After(old(State()), Orders.Finalize(old(State()), o, version, general, job))
      ensures e == Failure(Orders.Finalize(old(State()), o, version, general, job))
    {
      var order := orders[o];
      var savedRows, savedHistory := allocations, fulfilments;
      e := ConsumePlan(
        if |general| > 0 then Some(PostingKey(order.documentNo, General)) else None,
        if |job| > 0 then Some(PostingKey(order.documentNo, JobOutput)) else None,
        general + job);
      if e.None? {
        if order.status == Ready && order.version == version {
          Write(o, order.(status := Fulfilled));
          return None;
        }
        if order.status == Fulfilled { return None; }
        e := Some(ConcurrentModification);
      }
      allocations, fulfilments := savedRows, savedHistory;
    }
  }

  // ---------------------------------------------------------------------------
  // A failure part-way is the failure of the whole

  lemma {:induction false} InsertFails(rows: seq<Allocation>, o: Id, line: nat, portions: seq<Portion>, i: nat)
    requires i < |portions| && InsertAll(rows, o, line, portions[..i + 1]).Err?
    ensures InsertAll(rows, o, line, portions) == InsertAll(rows, o, line, portions[..i + 1])
  {
    if i + 1 < |portions| {
      var n := |portions| - 1;
      assert portions[..n][..i + 1] == portions[..i + 1];
      InsertFails(rows, o, line, portions[..n], i);
    } else {
      assert portions[..i + 1] == portions;
    }
  }

  lemma {:induction false} ComponentsFail(onHand: map<Key, int>, rows: seq<Allocation>, o: Id, line: nat,
      components: seq<Component>, i: nat, view: StockView)
    requires i < |components| && Orders.AllocateComponents(onHand, rows, o, line, components[..i + 1], view).Err?
    ensures Orders.AllocateComponents(onHand, rows, o, line, components, view)
         == Orders.AllocateComponents(onHand, rows, o, line, components[..i + 1], view)
  {
    if i + 1 < |components| {
      var n := |components| - 1;
      assert components[..n][..i + 1] == components[..i + 1];
      ComponentsFail(onHand, rows, o, line, components[..n], i, view);
    } else {
      assert components[..i + 1] == components;
    }
  }

  lemma {:induction false} LinesFail(onHand: map<Key, int>, rows: seq<Allocation>, o: Id, lines: seq<Line>, i: nat,
      view: StockView)
    requires i < |lines| && Orders.AllocateLines(onHand, rows, o, lines[..i + 1], view).Err?
    ensures Orders.AllocateLines(onHand, rows, o, lines, view) ==
      Orders.AllocateLines(onHand, rows, o, lines[..i + 1], view)
  {
    if i + 1 < |lines| {
      var n := |lines| - 1;
      assert lines[..n][..i + 1] == lines[..i + 1];
      LinesFail(onHand, rows, o, lines[..n], i, view);
    } else {
      assert lines[..i + 1] == lines;
    }
  }

  lemma {:induction false} ReadyFails(onHand: map<Key, int>, rows: seq<Allocation>, o: Id, lines: seq<Line>, i: nat,
      view: StockView)
    requires i < |lines| && Orders.ReadyLines(onHand, rows, o, lines[..i + 1], view).Err?
    ensures Orders.ReadyLines(onHand, rows, o, lines, view) == Orders.ReadyLines(onHand, rows, o, lines[..i + 1], view)
  {
    if i + 1 < |lines| {
      var n := |lines| - 1;
      assert lines[..n][..i + 1] == lines[..i + 1];
      ReadyFails(onHand, rows, o, lines[..n], i, view);
    } else {
      assert lines[..i + 1] == lines;
    }
  }

  lemma {:induction false} WithdrawFails(onHand: map<Key, int>, movements: seq<Movement>, i: nat)
    requires i < |movements| && Withdraw(onHand, movements[..i + 1]).None?
    ensures Withdraw(onHand, movements).None?
  {
    if i + 1 < |movements| {
      var n := |movements| - 1;
      assert movements[..n][..i + 1] == movements[..i + 1];
      WithdrawFails(onHand, movements[..n], i);
    } else {
      assert movements[..i + 1] == movements;
    }
  }

  lemma {:induction false} ConsumeFails(db: Database, g: Option<string>, j: Option<string>, movements: seq<Movement>,
      i: nat)
    requires i < |movements| && ConsumeAll(db, g, j, movements[..i + 1]).Err?
    ensures ConsumeAll(db, g, j, movements) == ConsumeAll(db, g, j, movements[..i + 1])
  {
    if i + 1 < |movements| {
      var n := |movements| - 1;
      assert movements[..n][..i + 1] == movements[..i + 1];
      ConsumeFails(db, g, j, movements[..n], i);
    } else {
      assert movements[..i + 1] == movements;
    }
  }

  /** Which posting carries an allocation does not depend on the rows already consumed. */
  lemma ResolvingReads(before: Database, now: Database, g: Option<string>, j: Option<string>, allocation: Id)
    requires now.postings == before.postings
    ensures ResolvePosting(now, g, j, allocation) == ResolvePosting(before, g, j, allocation)
  {
  }
}
