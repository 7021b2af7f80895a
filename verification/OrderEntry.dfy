/**
 * From a request to the order tables: the rows the resolver returns are the lines an order is filed
 * with (src/modules/customer-orders/validation.ts, src/modules/customer-orders/service.ts).
 */
module OrderEntry {
  import opened Common
  import opened Orders
  import R = LineArithmetic

  /** A snapshot entry, its quantity in units of the item. */
  function ComponentOf(c: R.SnapshotItem): Component {
    Component(c.item, if R.Positive(c.quantity) then c.quantity.units else 0)
  }

  function Components(snapshot: seq<R.SnapshotItem>): (cs: seq<Component>)
    ensures |cs| == |snapshot|
  {
    seq(|snapshot|, i requires 0 <= i < |snapshot| => ComponentOf(snapshot[i]))
  }

  function OwnerOf(r: R.ResolvedLine): Owner {
    if r.job.Some? then JobOrder(r.job.value)
    else if r.snapshot.Some? then ComponentSnapshot(Components(r.snapshot.value))
    else StockedOutput
  }

  function LineOf(r: R.ResolvedLine): Line {
    Line(r.item, if r.baseQuantity > 0 then r.baseQuantity else 0, OwnerOf(r))
  }

  function LinesOf(rows: seq<R.ResolvedLine>): (lines: seq<Line>)
    ensures |lines| == |rows|
  {
    seq(|rows|, i requires 0 <= i < |rows| => LineOf(rows[i]))
  }

  lemma ResolvedLineIsValid(l: R.LineInput, r: R.ResolvedLine, lineNo: nat)
    requires R.CheckLine(l).None? && R.Matches(l, r, lineNo)
    ensures ValidLine(LineOf(r)) && LineOf(r).baseQuantity == r.baseQuantity
  {
    if r.job.None? && r.snapshot.Some? {
      var items := r.snapshot.value;
      forall c | c in Components(items) ensures c.quantity > 0 {
        var i :| 0 <= i < |items| && Components(items)[i] == c;
        assert items[i] in items;
      }
    }
  }

  /** What the resolver accepts, the order tables accept. */
  lemma ResolvedLinesAreValid(cat: R.Catalogue, location: Id, request: seq<R.LineInput>)
    requires R.PositiveFactors(cat) && R.Resolve(cat, location, request).Ok?
    ensures ValidLines(LinesOf(R.Resolve(cat, location, request).value))
  {
    var rows := R.Resolve(cat, location, request).value;
    R.ResolveMeans(cat, location, request);
    forall line | line in LinesOf(rows) ensures ValidLine(line) {
      var i :| 0 <= i < |rows| && LinesOf(rows)[i] == line;
      assert request[i] in request;
      ResolvedLineIsValid(request[i], rows[i], i + 1);
    }
  }

  /** A request that resolves becomes a draft exactly when its number and its job orders are still free. */
  lemma DraftFromRequest(db: Database, documentNo: string, cat: R.Catalogue, location: Id, request: seq<R.LineInput>)
    requires R.PositiveFactors(cat) && R.Resolve(cat, location, request).Ok?
    ensures var lines := LinesOf(R.Resolve(cat, location, request).value);
      CreateDraft(db, documentNo, lines).Ok? <==>
        (forall o :: o in db.orders ==> o.documentNo != documentNo) && JobsFree(db.orders, lines)
  {
    ResolvedLinesAreValid(cat, location, request);
  }
}
