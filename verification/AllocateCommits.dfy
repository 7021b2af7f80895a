/**
 * When a whole allocate call commits (src/modules/customer-orders/service.ts, allocation.ts): the
 * lines of an order become a list of requests, each drawn FEFO from what the earlier ones left.
 */
module AllocateCommits {
  import opened Common
  import opened Fefo
  import opened Orders
  import opened OrderFacts
  import opened AllocationOutcome

  /** One FEFO allocation an order asks for. */
  datatype Request = Request(line: nat, source: Source, need: nat)

  // ---------------------------------------------------------------------------
  // The requests of an order

  function ComponentRequests(ell: nat, components: seq<Component>): (r: seq<Request>)
    ensures |r| == |components|
  {
    seq(|components|, i requires 0 <= i < |components| =>
      Request(ell, Outlet(components[i].item), components[i].quantity))
  }

  /** A line whose job order is not completed asks for nothing yet. */
  function LineRequests(ell: nat, line: Line, view: StockView): seq<Request> {
    match line.owner
    case StockedOutput => [Request(ell, Outlet(line.item), line.baseQuantity)]
    case JobOrder(job) =>
      if job in view.completedJobs then [Request(ell, JobWarehouse(job, line.item), line.baseQuantity)] else []
    case ComponentSnapshot(components) => ComponentRequests(ell, components)
  }

  function Requests(lines: seq<Line>, view: StockView): seq<Request> {
    if lines == [] then [] else
      var n := |lines| - 1;
      Requests(lines[..n], view) + LineRequests(n, lines[n], view)
  }

  /** A completed job order has its output lot on record; a snapshot is not empty. */
  predicate Recorded(line: Line, view: StockView) {
    match line.owner
    case StockedOutput => true
    case JobOrder(job) => job in view.completedJobs ==> job in view.outputLots
    case ComponentSnapshot(components) => components != []
  }

  predicate AllRecorded(lines: seq<Line>, view: StockView) { forall l :: l in lines ==> Recorded(l, view) }

  /** The requests served one after the other, each selection followed by its inserts. */
  function Serve(onHand: map<Key, int>, rows: seq<Allocation>, o: Id, requests: seq<Request>, view: StockView)
    : Result<seq<Allocation>, Error>
  {
    if requests == [] then Ok(rows) else
      var n := |requests| - 1;
      var before := Serve(onHand, rows, o, requests[..n], view);
      if before.Err? then before
      else AllocateItem(onHand, before.value, o, requests[n].line, requests[n].source, requests[n].need, view)
  }

  lemma ServeLast(onHand: map<Key, int>, rows: seq<Allocation>, o: Id, requests: seq<Request>, r: Request,
      view: StockView)
    ensures var before := Serve(onHand, rows, o, requests, view);
      Serve(onHand, rows, o, requests + [r], view)
        == if before.Err? then before else AllocateItem(onHand, before.value, o, r.line, r.source, r.need, view)
  {
    assert (requests + [r])[..|requests|] == requests;
  }

  lemma {:induction false} ServeConcat(onHand: map<Key, int>, rows: seq<Allocation>, o: Id, a: seq<Request>,
      b: seq<Request>, view: StockView)
    ensures var first := Serve(onHand, rows, o, a, view);
      Serve(onHand, rows, o, a + b, view) == if first.Err? then first else Serve(onHand, first.value, o, b, view)
  {
    if b == [] {
      assert a + b == a;
    } else {
      var n := |b| - 1;
      ServeConcat(onHand, rows, o, a, b[..n], view);
      assert a + b == (a + b[..n]) + [b[n]];
      ServeLast(onHand, rows, o, a + b[..n], b[n], view);
    }
  }

  lemma {:induction false} ComponentsServe(onHand: map<Key, int>, rows: seq<Allocation>, o: Id, ell: nat,
      components: seq<Component>, view: StockView)
    ensures AllocateComponents(onHand, rows, o, ell, components, view) ==
      Serve(onHand, rows, o, ComponentRequests(ell, components), view)
  {
    if components != [] {
      var n := |components| - 1;
      ComponentsServe(onHand, rows, o, ell, components[..n], view);
      assert ComponentRequests(ell, components)[..n] == ComponentRequests(ell, components[..n]);
    }
  }

  lemma LineServe(onHand: map<Key, int>, rows: seq<Allocation>, o: Id, ell: nat, line: Line, view: StockView)
    ensures if Recorded(line, view)
            then AllocateLine(onHand, rows, o, ell, line, view) ==
              Serve(onHand, rows, o, LineRequests(ell, line, view), view)
            else AllocateLine(onHand, rows, o, ell, line, view).Err?
  {
    var requests := LineRequests(ell, line, view);
    if line.owner.ComponentSnapshot? {
      ComponentsServe(onHand, rows, o, ell, line.owner.components, view);
    } else if requests != [] {
      assert requests[..0] == [];
    }
  }

  lemma {:induction false} LinesServe(onHand: map<Key, int>, rows: seq<Allocation>, o: Id, lines: seq<Line>,
      view: StockView)
    ensures var r := AllocateLines(onHand, rows, o, lines, view);
      && (r.Ok? <==> AllRecorded(lines, view) && Serve(onHand, rows, o, Requests(lines, view), view).Ok?)
      && (r.Ok? ==> r == Serve(onHand, rows, o, Requests(lines, view), view))
  {
    if lines != [] {
      var n := |lines| - 1;
      LinesServe(onHand, rows, o, lines[..n], view);
      RecordedOneMore(lines, view);
      ServeConcat(onHand, rows, o, Requests(lines[..n], view), LineRequests(n, lines[n], view), view);
      var before := AllocateLines(onHand, rows, o, lines[..n], view);
      if before.Ok? { LineServe(onHand, before.value, o, n, lines[n], view); }
    }
  }

  lemma RecordedOneMore(lines: seq<Line>, view: StockView)
    requires lines != []
    ensures AllRecorded(lines, view) <==> AllRecorded(lines[..|lines| - 1], view) && Recorded(lines[|lines| - 1], view)
  {
    var n := |lines| - 1;
    assert lines == lines[..n] + [lines[n]];
  }

  /** The first line that cannot be allocated gives its error to the whole call. */
  lemma {:induction false} LinesRefused(onHand: map<Key, int>, rows: seq<Allocation>, o: Id, lines: seq<Line>,
      view: StockView, e: Error)
    ensures AllocateLines(onHand, rows, o, lines, view) == Err(e) <==>
      exists n :: 0 <= n < |lines| && RefusedAt(onHand, rows, o, lines, view, n, e)
  {
    if lines != [] {
      var m := |lines| - 1;
      LinesRefused(onHand, rows, o, lines[..m], view, e);
      forall n | 0 <= n < m
        ensures RefusedAt(onHand, rows, o, lines, view, n, e) <==> RefusedAt(onHand, rows, o, lines[..m], view, n, e)
      {
        assert lines[..m][..n] == lines[..n];
      }
      if AllocateLines(onHand, rows, o, lines[..m], view) == Err(e) {
        var n :| 0 <= n < m && RefusedAt(onHand, rows, o, lines[..m], view, n, e);
        assert RefusedAt(onHand, rows, o, lines, view, n, e);
      } else if AllocateLines(onHand, rows, o, lines, view) == Err(e) {
        assert RefusedAt(onHand, rows, o, lines, view, m, e);
      }
      if exists n :: 0 <= n < |lines| && RefusedAt(onHand, rows, o, lines, view, n, e) {
        var n :| 0 <= n < |lines| && RefusedAt(onHand, rows, o, lines, view, n, e);
        if n < m { assert RefusedAt(onHand, rows, o, lines[..m], view, n, e); }
      }
    }
  }

  /** The lines before `n` are allocated, and line `n` is refused with `e`. */
  predicate RefusedAt(onHand: map<Key, int>, rows: seq<Allocation>, o: Id, lines: seq<Line>, view: StockView, n: nat,
      e: Error)
    requires n < |lines|
  {
    var before := AllocateLines(onHand, rows, o, lines[..n], view);
    before.Ok? && AllocateLine(onHand, before.value, o, n, lines[n], view) == Err(e)
  }

  /** A line that asks for nothing servable: a completed job order without its lot, or an empty snapshot. */
  lemma LineRefused(onHand: map<Key, int>, rows: seq<Allocation>, o: Id, ell: nat, line: Line, view: StockView)
    requires !Recorded(line, view)
    ensures AllocateLine(onHand, rows, o, ell, line, view) ==
      Err(if line.owner.JobOrder? then JobOrderNotReady else Validation)
  {
  }

  /** A line that mark-ready cannot take: without rows of its own, or with a job order not done. */
  lemma ReadyLineRefused(onHand: map<Key, int>, rows: seq<Allocation>, o: Id, ell: nat, line: Line, view: StockView)
    requires !Awaited(rows, o, ell, line, view)
    ensures ReadyLine(onHand, rows, o, ell, line, view) ==
      Err(if line.owner.JobOrder? then JobOrderNotReady else Validation)
  {
  }

  // ---------------------------------------------------------------------------
  // Drawing and inserting, taken apart

  function Candidates(view: StockView, source: Source): seq<Key> {
    if source in view.candidates then view.candidates[source] else []
  }

  /** Unreserved stock on the candidates of a source. */
  function Stock(onHand: map<Key, int>, rows: seq<Allocation>, keys: seq<Key>): int {
    Total(PositiveParts(Availability(onHand, rows, keys)))
  }

  /** The rows one request draws. */
  function Drawn(onHand: map<Key, int>, rows: seq<Allocation>, o: Id, r: Request, view: StockView): seq<Allocation> {
    var keys := Candidates(view, r.source);
    RowsFor(o, r.line, Portions(keys, Taken(Availability(onHand, rows, keys), r.need)))
  }

  predicate Covered(onHand: map<Key, int>, rows: seq<Allocation>, r: Request, view: StockView) {
    && r.source in view.candidates && view.candidates[r.source] != []
    && r.need <= Stock(onHand, rows, view.candidates[r.source])
  }

  /** What the requests draw, each from what the earlier ones left, with no regard to the unique index. */
  function Draw(onHand: map<Key, int>, rows: seq<Allocation>, o: Id, requests: seq<Request>,
      view: StockView): Option<seq<Allocation>> {
    if requests == [] then Some([]) else
      var n := |requests| - 1;
      var before := Draw(onHand, rows, o, requests[..n], view);
      if before.None? || !Covered(onHand, rows + before.value, requests[n], view) then None
      else Some(before.value + Drawn(onHand, rows + before.value, o, requests[n], view))
  }

  /** No line draws on one lot twice. */
  predicate NoRepeat(added: seq<Allocation>) {
    forall i, j :: 0 <= i < j < |added| ==> !(added[i].line == added[j].line && added[i].key.lot == added[j].key.lot)
  }

  predicate OwnActiveRows(added: seq<Allocation>, o: Id) {
    forall i :: 0 <= i < |added| ==> added[i].order == o && added[i].status == Active
  }

  predicate NoneActive(rows: seq<Allocation>, o: Id) {
    forall i :: 0 <= i < |rows| && rows[i].order == o ==> rows[i].status != Active
  }

  /** No line of the order that is asked for has an ACTIVE row yet. */
  predicate Untouched(rows: seq<Allocation>, o: Id, requests: seq<Request>) {
    forall j :: 0 <= j < |requests| ==> !HasActive(rows, o, requests[j].line)
  }

  lemma ClaimedAmong(rows: seq<Allocation>, added: seq<Allocation>, o: Id, line: nat, lot: Lot)
    requires !HasActive(rows, o, line) && OwnActiveRows(added, o)
    ensures Claimed(rows + added, o, line, lot) <==>
      exists i :: 0 <= i < |added| && added[i].line == line && added[i].key.lot == lot
  {
    var all := rows + added;
    assert forall k :: 0 <= k < |rows| ==> all[k] == rows[k];
    if Claimed(all, o, line, lot) {
      var i :| 0 <= i < |all| && all[i].status == Active && all[i].order == o && all[i].line == line &&
        all[i].key.lot == lot;
      assert added[i - |rows|].line == line && added[i - |rows|].key.lot == lot;
    }
    if exists i :: 0 <= i < |added| && added[i].line == line && added[i].key.lot == lot {
      var i :| 0 <= i < |added| && added[i].line == line && added[i].key.lot == lot;
      assert all[|rows| + i] == added[i];
    }
  }

  /** The inserts go through exactly when the drawn rows repeat no line and lot. */
  lemma FreeIsNoRepeat(rows: seq<Allocation>, added: seq<Allocation>, o: Id, line: nat, portions: seq<Portion>)
    requires !HasActive(rows, o, line) && OwnActiveRows(added, o) && NoRepeat(added)
    ensures LotsFree(rows + added, o, line, portions) <==> NoRepeat(added + RowsFor(o, line, portions))
  {
    var more := RowsFor(o, line, portions);
    var all := added + more;
    forall j | 0 <= j < |portions|
      ensures Claimed(rows + added, o, line, portions[j].key.lot)
        <==> exists i :: 0 <= i < |added| && added[i].line == line && added[i].key.lot == portions[j].key.lot
    {
      ClaimedAmong(rows, added, o, line, portions[j].key.lot);
    }
    if NoRepeat(all) {
      forall j | 0 <= j < |portions| ensures !Claimed(rows + added, o, line, portions[j].key.lot) {
        assert all[|added| + j] == more[j];
        assert forall i :: 0 <= i < |added| ==> all[i] == added[i];
      }
      forall i, j | 0 <= i < j < |portions| ensures portions[i].key.lot != portions[j].key.lot {
        assert all[|added| + i] == more[i] && all[|added| + j] == more[j];
      }
    }
  }

  lemma RepeatStays(added: seq<Allocation>, more: seq<Allocation>)
    requires NoRepeat(added + more)
    ensures NoRepeat(added)
  {
    assert forall i :: 0 <= i < |added| ==> (added + more)[i] == added[i];
  }

  lemma {:induction false} DrawOwn(onHand: map<Key, int>, rows: seq<Allocation>, o: Id, requests: seq<Request>,
      view: StockView)
    requires Draw(onHand, rows, o, requests, view).Some?
    ensures OwnActiveRows(Draw(onHand, rows, o, requests, view).value, o)
  {
    if requests != [] { DrawOwn(onHand, rows, o, requests[..|requests| - 1], view); }
  }

  /** One request after others that went through. */
  lemma ServeOne(onHand: map<Key, int>, rows: seq<Allocation>, added: seq<Allocation>, o: Id, r: Request,
      view: StockView)
    requires !HasActive(rows, o, r.line) && OwnActiveRows(added, o) && NoRepeat(added)
    ensures var t := AllocateItem(onHand, rows + added, o, r.line, r.source, r.need, view);
      var drawn := Drawn(onHand, rows + added, o, r, view);
      && (t.Ok? <==> Covered(onHand, rows + added, r, view) && NoRepeat(added + drawn))
      && (t.Ok? ==> t.value == rows + (added + drawn))
  {
    AllocateItemIff(onHand, rows + added, o, r.line, r.source, r.need, view);
    if Covered(onHand, rows + added, r, view) {
      var keys := view.candidates[r.source];
      var portions := Portions(keys, Taken(Availability(onHand, rows + added, keys), r.need));
      FreeIsNoRepeat(rows, added, o, r.line, portions);
      InsertAllAppends(rows + added, o, r.line, portions);
      AppendedTwice(rows, added, RowsFor(o, r.line, portions));
    }
  }

  lemma {:induction false} ServeIff(onHand: map<Key, int>, rows: seq<Allocation>, o: Id, requests: seq<Request>,
      view: StockView)
    requires Untouched(rows, o, requests)
    ensures var served, drawn := Serve(onHand, rows, o, requests, view), Draw(onHand, rows, o, requests, view);
      && (served.Ok? <==> drawn.Some? && NoRepeat(drawn.value))
      && (served.Ok? ==> served.value == rows + drawn.value)
  {
    if requests == [] {
      assert rows + [] == rows;
    } else {
      var n := |requests| - 1;
      ServeIff(onHand, rows, o, requests[..n], view);
      var before := Draw(onHand, rows, o, requests[..n], view);
      if before.Some? {
        DrawOwn(onHand, rows, o, requests[..n], view);
        var drawn := Drawn(onHand, rows + before.value, o, requests[n], view);
        if NoRepeat(before.value) {
          ServeOne(onHand, rows, before.value, o, requests[n], view);
        } else if NoRepeat(before.value + drawn) {
          RepeatStays(before.value, drawn);
        }
      }
    }
  }

  /**
   * A line that mark-ready has yet to allocate: it has no ACTIVE row. It must be fed by a job order that is
   * completed, with its output lot on record.
   */
  predicate Awaited(rows: seq<Allocation>, o: Id, ell: nat, line: Line, view: StockView) {
    HasActive(rows, o, ell) ||
      (line.owner.JobOrder? && line.owner.job in view.completedJobs && line.owner.job in view.outputLots)
  }

  predicate AllAwaited(rows: seq<Allocation>, o: Id, lines: seq<Line>, view: StockView) {
    forall ell :: 0 <= ell < |lines| ==> Awaited(rows, o, ell, lines[ell], view)
  }

  /** What mark-ready asks for: the whole output of each such line's job order. */
  function ReadyRequests(rows: seq<Allocation>, o: Id, lines: seq<Line>): seq<Request> {
    if lines == [] then [] else
      var n := |lines| - 1;
      ReadyRequests(rows, o, lines[..n]) +
        if HasActive(rows, o, n) || !lines[n].owner.JobOrder? then []
        else [Request(n, JobWarehouse(lines[n].owner.job, lines[n].item), lines[n].baseQuantity)]
  }

  lemma {:induction false} ReadyUntouched(rows: seq<Allocation>, o: Id, lines: seq<Line>)
    ensures Untouched(rows, o, ReadyRequests(rows, o, lines))
    ensures forall j :: 0 <= j < |ReadyRequests(rows, o, lines)| ==> ReadyRequests(rows, o, lines)[j].line < |lines|
  {
    if lines != [] { ReadyUntouched(rows, o, lines[..|lines| - 1]); }
  }

  /** Serving requests for earlier lines does not give line `n` a row. */
  lemma {:induction false} StillNone(onHand: map<Key, int>, rows: seq<Allocation>, o: Id, requests: seq<Request>,
      view: StockView, n: nat)
    requires forall j :: 0 <= j < |requests| ==> requests[j].line < n
    requires Serve(onHand, rows, o, requests, view).Ok?
    ensures HasActive(Serve(onHand, rows, o, requests, view).value, o, n) <==> HasActive(rows, o, n)
  {
    if requests != [] {
      var k := |requests| - 1;
      StillNone(onHand, rows, o, requests[..k], view, n);
      var before := Serve(onHand, rows, o, requests[..k], view).value;
      ItemElsewhere(onHand, before, o, requests[k], view, n);
    }
  }

  lemma ItemElsewhere(onHand: map<Key, int>, rows: seq<Allocation>, o: Id, r: Request, view: StockView, n: nat)
    requires r.line < n && AllocateItem(onHand, rows, o, r.line, r.source, r.need, view).Ok?
    ensures HasActive(AllocateItem(onHand, rows, o, r.line, r.source, r.need, view).value, o, n) <==>
      HasActive(rows, o, n)
  {
    var keys := Candidates(view, r.source);
    var portions := Portions(keys, Taken(Availability(onHand, rows, keys), r.need));
    InsertAllAppends(rows, o, r.line, portions);
    var all := rows + RowsFor(o, r.line, portions);
    if HasActive(rows, o, n) {
      var i :| 0 <= i < |rows| && rows[i].status == Active && rows[i].order == o && rows[i].line == n;
      assert all[i] == rows[i];
    }
  }

  lemma AwaitedOneMore(rows: seq<Allocation>, o: Id, lines: seq<Line>, view: StockView)
    requires lines != []
    ensures var n := |lines| - 1;
      AllAwaited(rows, o, lines, view) <==>
        AllAwaited(rows, o, lines[..n], view) && Awaited(rows, o, n, lines[n], view)
  {
    var n := |lines| - 1;
    assert forall ell :: 0 <= ell < n ==> lines[..n][ell] == lines[ell];
  }

  lemma {:induction false} ReadyServe(onHand: map<Key, int>, rows: seq<Allocation>, o: Id, lines: seq<Line>,
      view: StockView)
    ensures var r := ReadyLines(onHand, rows, o, lines, view);
      var served := Serve(onHand, rows, o, ReadyRequests(rows, o, lines), view);
      && (r.Ok? <==> AllAwaited(rows, o, lines, view) && served.Ok?)
      && (r.Ok? ==> r == served)
  {
    if lines != [] {
      var n := |lines| - 1;
      ReadyServe(onHand, rows, o, lines[..n], view);
      AwaitedOneMore(rows, o, lines, view);
      ReadyUntouched(rows, o, lines[..n]);
      var requests := ReadyRequests(rows, o, lines[..n]);
      var served := Serve(onHand, rows, o, requests, view);
      if served.Ok? { StillNone(onHand, rows, o, requests, view, n); }
      if lines[n].owner.JobOrder? {
        ServeLast(onHand, rows, o, requests,
                  Request(n, JobWarehouse(lines[n].owner.job, lines[n].item), lines[n].baseQuantity), view);
      }
      assert requests + [] == requests;
    }
  }

  /**
   * A ready call commits exactly when it is a replay, or the order is ALLOCATED or IN_PRODUCTION at the
   * expected version, each line has its rows or is fed by a completed job order with its lot on record,
   * each output asked for is found, and no line draws on one lot twice.
   */
  lemma ReadyIff(db: Database, o: Id, version: nat, view: StockView)
    requires o < |db.orders|
    ensures var order := db.orders[o];
      var drawn := Draw(db.onHand, db.allocations, o, ReadyRequests(db.allocations, o, order.lines), view);
      MarkReady(db, o, version, view).Ok? <==>
        order.status == Ready
        || (order.status in {Allocated, InProduction} && order.version == version
            && AllAwaited(db.allocations, o, order.lines, view) && drawn.Some? && NoRepeat(drawn.value))
  {
    ReadyServe(db.onHand, db.allocations, o, db.orders[o].lines, view);
    ReadyUntouched(db.allocations, o, db.orders[o].lines);
    ServeIff(db.onHand, db.allocations, o, ReadyRequests(db.allocations, o, db.orders[o].lines), view);
  }

  /**
   * An allocate call on an order with no ACTIVE rows commits exactly when it is a replay, or the order
   * is APPROVED at the expected version, every job order done has its lot, each request finds its need
   * in what the earlier ones left, and no line draws on one lot twice.
   */
  lemma AllocateIff(db: Database, o: Id, version: nat, view: StockView)
    requires NoneActive(db.allocations, o)
    ensures o >= |db.orders| ==> Allocate(db, o, version, view) == Err(NotFound)
    ensures o < |db.orders| ==>
      var order := db.orders[o];
      var drawn := Draw(db.onHand, db.allocations, o, Requests(order.lines, view), view);
      Allocate(db, o, version, view).Ok? <==>
        order.status == Allocated
        || (order.status == Approved && order.version == version && order.lines != []
            && AllRecorded(order.lines, view) && drawn.Some? && NoRepeat(drawn.value))
  {
    if o < |db.orders| {
      LinesServe(db.onHand, db.allocations, o, db.orders[o].lines, view);
      ServeIff(db.onHand, db.allocations, o, Requests(db.orders[o].lines, view), view);
    }
  }

  // ---------------------------------------------------------------------------
  // Enough stock, looked up before the call

  /** All that the requests ask of one source. */
  function TotalNeed(requests: seq<Request>, source: Source): nat {
    if requests == [] then 0 else
      var n := |requests| - 1;
      TotalNeed(requests[..n], source) + (if requests[n].source == source then requests[n].need else 0)
  }

  /** Every source asked has candidates, with unreserved stock for all that is asked of it. */
  ghost predicate Enough(onHand: map<Key, int>, rows: seq<Allocation>, requests: seq<Request>, view: StockView) {
    forall r :: r in requests ==>
      && r.source in view.candidates && view.candidates[r.source] != []
      && TotalNeed(requests, r.source) <= Stock(onHand, rows, view.candidates[r.source])
  }

  /** Different sources are different nodes: they have no balance row in common. */
  ghost predicate Apart(requests: seq<Request>, view: StockView) {
    forall r, q, k :: r in requests && q in requests && r.source != q.source && k in Candidates(view, r.source) ==>
      k !in Candidates(view, q.source)
  }

  /** What is left of one candidate, and what was taken of it, make up what there was. */
  lemma PartAfter(onHand: map<Key, int>, rows: seq<Allocation>, o: Id, line: nat, keys: seq<Key>, need: int, i: nat)
    requires Distinct(keys) && i < |keys|
    ensures var available := Availability(onHand, rows, keys);
      var drawn := RowsFor(o, line, Portions(keys, Taken(available, need)));
      PositiveParts(available)[i] ==
        PositiveParts(Availability(onHand, rows + drawn, keys))[i] + Taken(available, need)[i]
  {
    var available := Availability(onHand, rows, keys);
    var taken := Taken(available, need);
    ReservedConcat(rows, RowsFor(o, line, Portions(keys, taken)), keys[i]);
    RowsForReserved(o, line, Portions(keys, taken), keys[i]);
    DrawnOnce(keys, taken, i);
    TakenWithin(available, need, i);
  }

  /** A draw takes its need off the stock of its own candidates. */
  lemma StockAfter(onHand: map<Key, int>, rows: seq<Allocation>, o: Id, r: Request, view: StockView)
    requires Covered(onHand, rows, r, view) && Distinct(view.candidates[r.source])
    ensures var keys := view.candidates[r.source];
      Stock(onHand, rows + Drawn(onHand, rows, o, r, view), keys) == Stock(onHand, rows, keys) - r.need
  {
    var keys := view.candidates[r.source];
    var available := Availability(onHand, rows, keys);
    var taken := Taken(available, r.need);
    var left := PositiveParts(Availability(onHand, rows + Drawn(onHand, rows, o, r, view), keys));
    forall i | 0 <= i < |keys| ensures PositiveParts(available)[i] == left[i] + taken[i] {
      PartAfter(onHand, rows, o, r.line, keys, r.need, i);
    }
    TotalPlus(left, taken, PositiveParts(available));
    TakenTotal(available, r.need);
  }

  /** And nothing off the stock of others. */
  lemma StockElsewhere(onHand: map<Key, int>, rows: seq<Allocation>, o: Id, r: Request, view: StockView, keys: seq<Key>)
    requires forall k :: k in Candidates(view, r.source) ==> k !in keys
    ensures Stock(onHand, rows + Drawn(onHand, rows, o, r, view), keys) == Stock(onHand, rows, keys)
  {
    var drawn := Drawn(onHand, rows, o, r, view);
    var taken := Taken(Availability(onHand, rows, Candidates(view, r.source)), r.need);
    forall i | 0 <= i < |keys| ensures Reserved(rows + drawn, keys[i]) == Reserved(rows, keys[i]) {
      ReservedConcat(rows, drawn, keys[i]);
      RowsForReserved(o, r.line, Portions(Candidates(view, r.source), taken), keys[i]);
      assert keys[i] !in Candidates(view, r.source);
      DrawnNowhere(Candidates(view, r.source), taken, keys[i]);
    }
    assert Availability(onHand, rows + drawn, keys) == Availability(onHand, rows, keys);
  }

  lemma StockDrawn(onHand: map<Key, int>, rows: seq<Allocation>, o: Id, r: Request, view: StockView, source: Source)
    requires Covered(onHand, rows, r, view) && Distinct(view.candidates[r.source])
    requires r.source != source ==> forall k :: k in Candidates(view, r.source) ==> k !in Candidates(view, source)
    ensures var keys := Candidates(view, source);
      Stock(onHand, rows + Drawn(onHand, rows, o, r, view), keys)
        == Stock(onHand, rows, keys) - (if r.source == source then r.need else 0)
  {
    if r.source == source {
      StockAfter(onHand, rows, o, r, view);
    } else {
      StockElsewhere(onHand, rows, o, r, view, Candidates(view, source));
    }
  }

  /** The last of the first `n` requests. */
  lemma DrawStep(onHand: map<Key, int>, rows: seq<Allocation>, o: Id, requests: seq<Request>, n: nat, view: StockView,
      source: Source)
    requires 0 < n <= |requests|
    ensures var before := Draw(onHand, rows, o, requests[..n - 1], view);
      Draw(onHand, rows, o, requests[..n], view) ==
        if before.None? || !Covered(onHand, rows + before.value, requests[n - 1], view) then None
        else Some(before.value + Drawn(onHand, rows + before.value, o, requests[n - 1], view))
    ensures TotalNeed(requests[..n], source)
      == TotalNeed(requests[..n - 1], source) + (if requests[n - 1].source == source then requests[n - 1].need else 0)
  {
    assert requests[..n][..n - 1] == requests[..n - 1];
  }

  lemma AppendedTwice(a: seq<Allocation>, b: seq<Allocation>, c: seq<Allocation>)
    ensures a + (b + c) == a + b + c
  {
  }

  /** What the first `n` requests leave of each source that the order asks. */
  lemma {:induction false} StockLeft(onHand: map<Key, int>, rows: seq<Allocation>, o: Id, requests: seq<Request>,
      n: nat, view: StockView, q: Request)
    requires WellRead(view) && Apart(requests, view) && n <= |requests| && q in requests
    requires Draw(onHand, rows, o, requests[..n], view).Some?
    ensures var drawn := Draw(onHand, rows, o, requests[..n], view).value;
      var keys := Candidates(view, q.source);
      Stock(onHand, rows + drawn, keys) == Stock(onHand, rows, keys) - TotalNeed(requests[..n], q.source)
  {
    if n == 0 {
      assert rows + [] == rows;
    } else {
      var r := requests[n - 1];
      DrawStep(onHand, rows, o, requests, n, view, q.source);
      StockLeft(onHand, rows, o, requests, n - 1, view, q);
      var before := Draw(onHand, rows, o, requests[..n - 1], view).value;
      var drawn := Drawn(onHand, rows + before, o, r, view);
      StockDrawn(onHand, rows + before, o, r, view, q.source);
      AppendedTwice(rows, before, drawn);
    }
  }

  lemma {:induction false} NeedGrows(requests: seq<Request>, m: nat, n: nat, source: Source)
    requires m <= n <= |requests|
    ensures TotalNeed(requests[..m], source) <= TotalNeed(requests[..n], source)
  {
    if m < n {
      NeedGrows(requests, m, n - 1, source);
      assert requests[..n][..n - 1] == requests[..n - 1];
    }
  }

  /** Request `m` and those before it on the same source ask for no more than it had. */
  predicate CoveredUpTo(onHand: map<Key, int>, rows: seq<Allocation>, requests: seq<Request>, m: nat, view: StockView)
    requires m < |requests|
  {
    var r := requests[m];
    && r.source in view.candidates && view.candidates[r.source] != []
    && TotalNeed(requests[..m + 1], r.source) <= Stock(onHand, rows, view.candidates[r.source])
  }

  predicate AllCovered(onHand: map<Key, int>, rows: seq<Allocation>, requests: seq<Request>, n: nat, view: StockView)
    requires n <= |requests|
  {
    n == 0 || (AllCovered(onHand, rows, requests, n - 1, view) && CoveredUpTo(onHand, rows, requests, n - 1, view))
  }

  lemma {:induction false} AllCoveredMeans(onHand: map<Key, int>, rows: seq<Allocation>, requests: seq<Request>, n: nat,
      view: StockView)
    requires n <= |requests|
    ensures AllCovered(onHand, rows, requests, n, view) <==>
      forall m :: 0 <= m < n ==> CoveredUpTo(onHand, rows, requests, m, view)
  {
    if n > 0 { AllCoveredMeans(onHand, rows, requests, n - 1, view); }
  }

  lemma DrawnNext(onHand: map<Key, int>, rows: seq<Allocation>, o: Id, requests: seq<Request>, n: nat, view: StockView)
    requires WellRead(view) && Apart(requests, view) && 0 < n <= |requests|
    requires Draw(onHand, rows, o, requests[..n - 1], view).Some?
    ensures Draw(onHand, rows, o, requests[..n], view).Some? <==> CoveredUpTo(onHand, rows, requests, n - 1, view)
  {
    var r := requests[n - 1];
    DrawStep(onHand, rows, o, requests, n, view, r.source);
    StockLeft(onHand, rows, o, requests, n - 1, view, r);
  }

  /** The first `n` requests can be drawn exactly when there is enough for them. */
  lemma {:induction false} DrawnUpTo(onHand: map<Key, int>, rows: seq<Allocation>, o: Id, requests: seq<Request>,
      n: nat, view: StockView)
    requires WellRead(view) && Apart(requests, view) && n <= |requests|
    ensures Draw(onHand, rows, o, requests[..n], view).Some? <==> AllCovered(onHand, rows, requests, n, view)
  {
    if n > 0 {
      DrawnUpTo(onHand, rows, o, requests, n - 1, view);
      if Draw(onHand, rows, o, requests[..n - 1], view).Some? {
        DrawnNext(onHand, rows, o, requests, n, view);
      } else {
        DrawStep(onHand, rows, o, requests, n, view, requests[n - 1].source);
      }
    }
  }

  lemma LastOfSource(requests: seq<Request>, r: Request) returns (m: nat)
    requires r in requests
    ensures m < |requests| && requests[m].source == r.source &&
      TotalNeed(requests[..m + 1], r.source) == TotalNeed(requests, r.source)
  {
    var n := |requests| - 1;
    if requests[n].source == r.source {
      m := n;
      assert requests[..n + 1] == requests;
    } else {
      assert r in requests[..n];
      m := LastOfSource(requests[..n], r);
      assert requests[..n][..m + 1] == requests[..m + 1];
    }
  }

  /** With sources apart, the draw succeeds exactly when each source has stock for all that is asked of it. */
  lemma DrawIffEnough(onHand: map<Key, int>, rows: seq<Allocation>, o: Id, requests: seq<Request>, view: StockView)
    requires WellRead(view) && Apart(requests, view)
    ensures Draw(onHand, rows, o, requests, view).Some? <==> Enough(onHand, rows, requests, view)
  {
    var n := |requests|;
    assert requests[..n] == requests;
    DrawnUpTo(onHand, rows, o, requests, n, view);
    AllCoveredMeans(onHand, rows, requests, n, view);
    if Enough(onHand, rows, requests, view) {
      forall m | 0 <= m < n ensures CoveredUpTo(onHand, rows, requests, m, view) {
        assert requests[m] in requests;
        NeedGrows(requests, m + 1, n, requests[m].source);
      }
    }
    if forall m :: 0 <= m < n ==> CoveredUpTo(onHand, rows, requests, m, view) {
      forall r | r in requests
        ensures r.source in view.candidates && view.candidates[r.source] != []
          && TotalNeed(requests, r.source) <= Stock(onHand, rows, view.candidates[r.source])
      {
        var m := LastOfSource(requests, r);
        assert CoveredUpTo(onHand, rows, requests, m, view);
      }
    }
  }

  /** So the whole call is decided by per-source totals and by the lots its lines would draw. */
  lemma AllocateIffEnough(db: Database, o: Id, version: nat, view: StockView)
    requires NoneActive(db.allocations, o) && WellRead(view) && o < |db.orders| && db.orders[o].status != Allocated
    requires Apart(Requests(db.orders[o].lines, view), view)
    ensures var order, requests := db.orders[o], Requests(db.orders[o].lines, view);
      Allocate(db, o, version, view).Ok? <==>
        && order.status == Approved && order.version == version && order.lines != []
        && AllRecorded(order.lines, view) && Enough(db.onHand, db.allocations, requests, view)
        && var drawn := Draw(db.onHand, db.allocations, o, requests, view); (drawn.Some? ==> NoRepeat(drawn.value))
  {
    AllocateIff(db, o, version, view);
    DrawIffEnough(db.onHand, db.allocations, o, Requests(db.orders[o].lines, view), view);
  }
}
