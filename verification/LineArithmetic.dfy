/**
 * Fixed-point arithmetic and the resolution of order lines (src/modules/customer-orders/validation.ts).
 * A decimal of scale s is the integer of its 10^-s units, as the code's big integers hold it.
 */
module LineArithmetic {
  import opened Common
  import Orders

  function Pow10(n: nat): (p: nat)
    ensures p >= 1
  {
    if n == 0 then 1 else 10 * Pow10(n - 1)
  }

  // Big-integer division truncates toward zero, and the remainder takes the dividend's sign.

  function TruncDiv(a: int, b: nat): int
    requires b > 0
  {
    if a >= 0 then a / b else -((-a) / b)
  }

  function TruncMod(a: int, b: nat): int
    requires b > 0
  {
    if a >= 0 then a % b else -((-a) % b)
  }

  function MultiplyRounded(left: int, leftScale: nat, right: int, rightScale: nat, outScale: nat): int {
    var product := left * right;
    var scale := leftScale + rightScale;
    if scale == outScale then product
    else if scale < outScale then product * Pow10(outScale - scale)
    else RoundedQuotient(product, Pow10(scale - outScale))
  }

  function RoundedQuotient(product: int, divisor: nat): int
    requires divisor > 0
  {
    var quotient := TruncDiv(product, divisor);
    if TruncMod(product, divisor) * 2 >= divisor then quotient + 1 else quotient
  }

  // ---------------------------------------------------------------------------
  // Rounding

  /** Within half a unit of the exact quotient, and rounded up when it lies half-way. */
  predicate HalfUp(product: int, divisor: int, r: int) {
    2 * product - divisor < 2 * (r * divisor) <= 2 * product + divisor
  }

  lemma MultiplesApart(r: int, t: int, divisor: nat)
    requires r > t && divisor > 0
    ensures r * divisor >= t * divisor + divisor
  {
    assert (r - t - 1) * divisor >= 0;
    assert (r - t - 1) * divisor == r * divisor - t * divisor - divisor;
  }

  lemma HalfUpOrdered(p: int, q: int, divisor: nat, r: int, t: int)
    requires divisor > 0 && p <= q && HalfUp(p, divisor, r) && HalfUp(q, divisor, t)
    ensures r <= t
  {
    if r > t { MultiplesApart(r, t, divisor); }
  }

  /** There is one half-up rounding. */
  lemma HalfUpUnique(product: int, divisor: nat, r: int, q: int)
    requires divisor > 0 && HalfUp(product, divisor, r) && HalfUp(product, divisor, q)
    ensures r == q
  {
    HalfUpOrdered(product, product, divisor, r, q);
    HalfUpOrdered(product, product, divisor, q, r);
  }

  lemma Division(product: nat, divisor: nat)
    requires divisor > 0
    ensures product == product / divisor * divisor + product % divisor && 0 <= product % divisor < divisor
  {
  }

  /** The rounded quotient of a non-negative product is its half-up rounding. */
  lemma RoundsHalfUp(product: nat, divisor: nat)
    requires divisor > 0
    ensures HalfUp(product, divisor, RoundedQuotient(product, divisor)) && RoundedQuotient(product, divisor) >= 0
  {
    Division(product, divisor);
    var q := product / divisor;
    assert (q + 1) * divisor == q * divisor + divisor;
  }

  lemma HalfUpMonotone(p: nat, q: nat, divisor: nat)
    requires divisor > 0 && p <= q
    ensures RoundedQuotient(p, divisor) <= RoundedQuotient(q, divisor)
  {
    RoundsHalfUp(p, divisor);
    RoundsHalfUp(q, divisor);
    HalfUpOrdered(p, q, divisor, RoundedQuotient(p, divisor), RoundedQuotient(q, divisor));
  }

  /**
   * For non-negative factors the rounded product is the half-up rounding of the exact one, exact when
   * no digits are dropped, and monotone in each factor.
   */
  lemma MultiplyRoundedMeans(left: nat, leftScale: nat, right: nat, rightScale: nat, outScale: nat)
    ensures var r := MultiplyRounded(left, leftScale, right, rightScale, outScale);
      && r >= 0
      && (leftScale + rightScale <= outScale ==> r == left * right * Pow10(outScale - (leftScale + rightScale)))
      && (leftScale + rightScale > outScale ==> HalfUp(left * right, Pow10(leftScale + rightScale - outScale), r))
  {
    ProductOfNats(left, right);
    if leftScale + rightScale > outScale {
      RoundsHalfUp(left * right, Pow10(leftScale + rightScale - outScale));
    } else {
      ProductOfNats(left * right, Pow10(outScale - (leftScale + rightScale)));
    }
  }

  lemma ProductOfNats(a: nat, b: nat)
    ensures a * b >= 0
  {
  }

  lemma MultiplyRoundedMonotone(left: nat, left': nat, right: nat, right': nat, leftScale: nat, rightScale: nat,
      outScale: nat)
    requires left <= left' && right <= right'
    ensures MultiplyRounded(left, leftScale, right, rightScale, outScale)
         <= MultiplyRounded(left', leftScale, right', rightScale, outScale)
  {
    var scale := leftScale + rightScale;
    ProductMonotone(left, left', right, right');
    ProductOfNats(left, right);
    ProductOfNats(left', right');
    if scale > outScale {
      HalfUpMonotone(left * right, left' * right', Pow10(scale - outScale));
    } else if scale < outScale {
      ProductMonotone(left * right, left' * right', Pow10(outScale - scale), Pow10(outScale - scale));
    }
  }

  lemma ProductMonotone(a: nat, b: nat, c: nat, d: nat)
    requires a <= b && c <= d
    ensures a * c <= b * d
  {
    assert a * c <= a * d by { assert a * (d - c) >= 0; }
    assert a * d <= b * d by { assert (b - a) * d >= 0; }
  }

  /**
   * Rounding is half-up exactly when the product is non-negative or close enough above its truncation:
   * a negative product whose dropped part is at least half a unit is rounded toward zero instead.
   */
  lemma NegativeRounding(product: int, divisor: nat)
    requires divisor > 0 && product < 0
    ensures HalfUp(product, divisor, RoundedQuotient(product, divisor)) <==> (-product) % divisor * 2 <= divisor
  {
    var m := -product;
    Division(m, divisor);
    var q, rem := m / divisor, m % divisor;
    assert RoundedQuotient(product, divisor) == -q;
    assert -q * divisor == -(q * divisor);
  }

  // ---------------------------------------------------------------------------
  // Lines

  /** A decimal field of a request at its scale: a value, or text that does not parse at that scale. */
  datatype Field = Unreadable | Value(units: int)

  datatype Mode = StockedOutput | MadeToOrder

  datatype SnapshotItem = SnapshotItem(item: Id, quantity: Field)

  /** A requested line; `uom` is trimmed and lower-cased, absent tax and discount are zero. */
  datatype LineInput = LineInput(
    item: Id, uom: string, quantity: Field, price: Field, tax: Field, discount: Field,
    mode: Mode, snapshot: Option<seq<SnapshotItem>>, job: Option<Id>)

  datatype ResolvedLine = ResolvedLine(
    lineNo: nat, item: Id, uom: string, enteredQuantity: int, factor: int, baseQuantity: int,
    unitPrice: int, taxAmount: int, discountAmount: int, lineTotal: int,
    mode: Mode, snapshot: Option<seq<SnapshotItem>>, job: Option<Id>)

  datatype Error = Validation | ConsumptionOwnerInvalid | UomMismatch | NotFound | CrossOutlet

  datatype Job = Job(location: Id, outputItem: Option<Id>)

  /** What the database says of items, unit conversions (at scale 8) and job orders. */
  datatype Catalogue =
      Catalogue(active: set<Id>, units: map<Id, string>, conversions: map<(Id, string), int>, jobs: map<Id, Job>)

  const MIN_LINES := 1
  const FACTOR_ONE := 100_000_000
  const PRICE_ONE := 1_000_000

  predicate Positive(f: Field) { f.Value? && f.units > 0 }

  predicate NonNegative(f: Field) { f.Value? && f.units >= 0 }

  /** The first fault of a line in itself, in the order it is looked for. */
  function CheckLine(l: LineInput): Option<Error> {
    if l.uom == "" then Some(Validation)
    else if l.mode == StockedOutput && (l.snapshot.Some? || l.job.Some?) then Some(ConsumptionOwnerInvalid)
    else if l.mode == MadeToOrder && (l.snapshot.Some? <==> l.job.Some?) then Some(ConsumptionOwnerInvalid)
    else if l.snapshot.Some? && (l.snapshot.value == [] || exists c :: c in l.snapshot.value && !Positive(c.quantity))
      then Some(Validation)
    else if !Positive(l.quantity) || !NonNegative(l.price) || !NonNegative(l.tax) || !NonNegative(l.discount)
      then Some(Validation)
    else None
  }

  function CheckAll(lines: seq<LineInput>): Option<Error> {
    if lines == [] then None else
      var before := CheckAll(lines[..|lines| - 1]);
      if before.Some? then before else CheckLine(lines[|lines| - 1])
  }

  predicate KnownItems(cat: Catalogue, l: LineInput) {
    && l.item in cat.active && l.item in cat.units
    && (l.snapshot.Some? ==> forall c :: c in l.snapshot.value ==> c.item in cat.active)
  }

  /** Keys ending in ":base" are taken for component quantities and never looked up. */
  predicate TakenForBase(uom: string) {
    uom == "base" || (|uom| >= 5 && uom[|uom| - 5..] == ":base")
  }

  /** The conversion factor of a line, when one is looked up and found. */
  function FactorOf(cat: Catalogue, l: LineInput): Option<int> {
    if TakenForBase(l.uom) || l.item !in cat.units then None
    else if cat.units[l.item] == l.uom then Some(FACTOR_ONE)
    else if (l.item, l.uom) in cat.conversions then Some(cat.conversions[(l.item, l.uom)])
    else None
  }

  function CheckJob(cat: Catalogue, location: Id, l: LineInput): Option<Error> {
    if l.job.None? then None
    else if l.job.value !in cat.jobs then Some(NotFound)
    else
      var job := cat.jobs[l.job.value];
      if job.location != location then Some(CrossOutlet)
      else if job.outputItem.Some? && job.outputItem.value != l.item then Some(Validation)
      else None
  }

  function Gross(quantity: int, price: int): int { MultiplyRounded(quantity, 6, price, 6, 6) }

  predicate Readable(l: LineInput) { l.quantity.Value? && l.price.Value? && l.tax.Value? && l.discount.Value? }

  /** One line of the last pass, after every line has passed the checks. */
  function ResolveLine(cat: Catalogue, location: Id, l: LineInput, lineNo: nat): Result<ResolvedLine, Error>
    requires Readable(l)
  {
    var job := CheckJob(cat, location, l);
    if job.Some? then Err(job.value)
    else if FactorOf(cat, l).None? then Err(UomMismatch)
    else
      var factor := FactorOf(cat, l).value;
      var product := l.quantity.units * factor;
      if TruncMod(product, FACTOR_ONE) != 0 then Err(UomMismatch)
      else
        var total := Gross(l.quantity.units, l.price.units) + l.tax.units - l.discount.units;
        if total < 0 then Err(Validation)
        else Ok(ResolvedLine(lineNo, l.item, l.uom, l.quantity.units, factor, TruncDiv(product, FACTOR_ONE),
                     l.price.units, l.tax.units, l.discount.units, total, l.mode, l.snapshot, l.job))
  }

  function ResolveAll(cat: Catalogue, location: Id, lines: seq<LineInput>): Result<seq<ResolvedLine>, Error>
    requires forall l :: l in lines ==> Readable(l)
  {
    if lines == [] then Ok([]) else
      var n := |lines| - 1;
      var before := ResolveAll(cat, location, lines[..n]);
      if before.Err? then before
      else
        var line := ResolveLine(cat, location, lines[n], n + 1);
        if line.Err? then Err(line.error) else Ok(before.value + [line.value])
  }

  function Resolve(cat: Catalogue, location: Id, lines: seq<LineInput>): Result<seq<ResolvedLine>, Error> {
    if |lines| < MIN_LINES || |lines| > Orders.MAX_LINES then Err(Validation)
    else
      var fault := CheckAll(lines);
      if fault.Some? then Err(fault.value)
      else if exists l :: l in lines && !KnownItems(cat, l) then Err(Validation)
      else if exists l :: l in lines && !TakenForBase(l.uom) && FactorOf(cat, l).None? then Err(UomMismatch)
      else
        CheckedReadable(lines);
        ResolveAll(cat, location, lines)
  }

  lemma Members(lines: seq<LineInput>)
    requires lines != []
    ensures forall l :: l in lines <==> l in lines[..|lines| - 1] || l == lines[|lines| - 1]
  {
  }

  lemma {:induction false} CheckedEach(lines: seq<LineInput>)
    ensures CheckAll(lines).None? <==> forall l :: l in lines ==> CheckLine(l).None?
  {
    if lines != [] {
      var n := |lines| - 1;
      CheckedEach(lines[..n]);
      Members(lines);
    }
  }

  lemma CheckedReadable(lines: seq<LineInput>)
    requires CheckAll(lines).None?
    ensures forall l :: l in lines ==> Readable(l)
  {
    CheckedEach(lines);
  }

  // ---------------------------------------------------------------------------
  // What a resolved line is worth

  /** The row's own CHECK constraints. */
  predicate RowChecks(r: ResolvedLine) {
    && r.lineNo > 0 && r.enteredQuantity > 0 && r.factor > 0 && r.baseQuantity > 0
    && r.unitPrice >= 0 && r.taxAmount >= 0 && r.discountAmount >= 0 && r.lineTotal >= 0
    && ((r.mode == StockedOutput && r.snapshot.None? && r.job.None?)
        || (r.mode == MadeToOrder && (r.snapshot.Some? <==> r.job.None?)))
  }

  /** Base quantity is exactly entered quantity times factor; the total is half-up gross plus tax minus discount. */
  ghost predicate LineExact(r: ResolvedLine, gross: int) {
    && r.baseQuantity * 100_000_000 == r.enteredQuantity * r.factor
    && HalfUp(r.enteredQuantity * r.unitPrice, 1_000_000, gross)
    && r.lineTotal == gross + r.taxAmount - r.discountAmount
  }

  ghost predicate PositiveFactors(cat: Catalogue) {
    forall k :: k in cat.conversions ==> cat.conversions[k] > 0
  }

  /** What makes a checked line resolvable, spelled out. */
  ghost predicate Resolvable(cat: Catalogue, location: Id, l: LineInput) {
    && Readable(l) && CheckJob(cat, location, l).None?
    && FactorOf(cat, l).Some?
    && (exists base: int :: base * 100_000_000 == l.quantity.units * FactorOf(cat, l).value)
    && Gross(l.quantity.units, l.price.units) + l.tax.units >= l.discount.units
  }

  lemma ExactDivision(product: nat, divisor: nat)
    requires divisor > 0
    ensures TruncMod(product, divisor) == 0 <==> exists q: int :: q * divisor == product
    ensures TruncMod(product, divisor) == 0 ==> TruncDiv(product, divisor) * divisor == product
  {
    Division(product, divisor);
    if exists q: int :: q * divisor == product {
      var q: int :| q * divisor == product;
      var k := q - product / divisor;
      assert k * divisor == product % divisor;
      if k > 0 { MultiplesApart(k, 0, divisor); }
      if k < 0 { MultiplesApart(0, k, divisor); }
    } else {
      assert product % divisor != 0;
    }
  }

  lemma GrossHalfUp(quantity: nat, price: nat)
    ensures HalfUp(quantity * price, PRICE_ONE, Gross(quantity, price)) && Gross(quantity, price) >= 0
  {
    MultiplyRoundedMeans(quantity, 6, price, 6, 6);
    PowSix();
  }

  lemma PowSix()
    ensures Pow10(6) == PRICE_ONE
  {
    assert Pow10(2) == 100;
    assert Pow10(4) == 10_000;
  }

  /** A resolved line of a request: exact, fit for its row, and of the request's item and figures. */
  ghost predicate Matches(l: LineInput, r: ResolvedLine, lineNo: nat) {
    && Readable(l)
    && RowChecks(r) && LineExact(r, Gross(r.enteredQuantity, r.unitPrice))
    && r.lineNo == lineNo && r.item == l.item && r.uom == l.uom
    && r.enteredQuantity == l.quantity.units && r.unitPrice == l.price.units
    && r.taxAmount == l.tax.units && r.discountAmount == l.discount.units
    && r.mode == l.mode && r.snapshot == l.snapshot && r.job == l.job
  }

  lemma ResolveLineMeans(cat: Catalogue, location: Id, l: LineInput, lineNo: nat)
    requires PositiveFactors(cat) && CheckLine(l).None? && lineNo > 0
    ensures Readable(l)
    ensures ResolveLine(cat, location, l, lineNo).Ok? <==> Resolvable(cat, location, l)
    ensures ResolveLine(cat, location, l, lineNo).Ok? ==>
      Matches(l, ResolveLine(cat, location, l, lineNo).value, lineNo)
  {
    GrossHalfUp(l.quantity.units, l.price.units);
    if FactorOf(cat, l).Some? {
      var factor := FactorOf(cat, l).value;
      var product := l.quantity.units * factor;
      PositiveProduct(l.quantity.units, factor);
      ExactDivision(product, FACTOR_ONE);
      if TruncMod(product, FACTOR_ONE) == 0 { assert TruncDiv(product, FACTOR_ONE) > 0; }
    }
  }

  lemma PositiveProduct(a: int, b: int)
    requires a > 0 && b > 0
    ensures a * b > 0
  {
  }

  ghost predicate LinesExact(lines: seq<LineInput>, resolved: seq<ResolvedLine>) {
    |resolved| == |lines| && forall i :: 0 <= i < |lines| ==> Matches(lines[i], resolved[i], i + 1)
  }

  /** One more line. */
  lemma ResolveStep(cat: Catalogue, location: Id, lines: seq<LineInput>)
    requires PositiveFactors(cat) && lines != [] && forall l :: l in lines ==> CheckLine(l).None? && Readable(l)
    requires var before := ResolveAll(cat, location, lines[..|lines| - 1]);
      before.Ok? ==> LinesExact(lines[..|lines| - 1], before.value)
    ensures var n := |lines| - 1;
      && (ResolveAll(cat, location, lines).Ok? <==>
           ResolveAll(cat, location, lines[..n]).Ok? && Resolvable(cat, location, lines[n]))
      && (ResolveAll(cat, location, lines).Ok? ==> LinesExact(lines, ResolveAll(cat, location, lines).value))
  {
    var n := |lines| - 1;
    assert lines[n] in lines;
    ResolveLineMeans(cat, location, lines[n], n + 1);
  }

  lemma {:induction false} ResolveAllMeans(cat: Catalogue, location: Id, lines: seq<LineInput>)
    requires PositiveFactors(cat) && forall l :: l in lines ==> CheckLine(l).None? && Readable(l)
    ensures ResolveAll(cat, location, lines).Ok? <==> forall l :: l in lines ==> Resolvable(cat, location, l)
    ensures ResolveAll(cat, location, lines).Ok? ==> LinesExact(lines, ResolveAll(cat, location, lines).value)
  {
    if lines != [] {
      Members(lines);
      ResolveAllMeans(cat, location, lines[..|lines| - 1]);
      ResolveStep(cat, location, lines);
    }
  }

  /** Everything a request must meet: each condition is one a caller can check beforehand. */
  ghost predicate Acceptable(cat: Catalogue, location: Id, lines: seq<LineInput>) {
    && 1 <= |lines| <= 100
    && forall l :: l in lines ==> CheckLine(l).None? && KnownItems(cat, l) && Resolvable(cat, location, l)
  }

  /**
   * Resolution succeeds exactly on acceptable requests; it then returns the lines in order, each with
   * an exact base quantity, a half-up total that is never negative, and satisfying every row check.
   */
  lemma ResolveMeans(cat: Catalogue, location: Id, lines: seq<LineInput>)
    requires PositiveFactors(cat)
    ensures Resolve(cat, location, lines).Ok? <==> Acceptable(cat, location, lines)
    ensures Resolve(cat, location, lines).Ok? ==> LinesExact(lines, Resolve(cat, location, lines).value)
  {
    CheckedEach(lines);
    if CheckAll(lines).None? {
      CheckedReadable(lines);
      ResolveAllMeans(cat, location, lines);
    }
  }

  /** A unit called "base" is never accepted, even when it is the item's own unit. */
  lemma BaseUnitRejected(cat: Catalogue, location: Id, lines: seq<LineInput>, l: LineInput)
    requires PositiveFactors(cat) && l in lines && l.uom == "base"
    ensures Resolve(cat, location, lines).Err?
  {
    ResolveMeans(cat, location, lines);
  }

  // ---------------------------------------------------------------------------
  // What a request is refused for

  /** A field that reads as a number no smaller than `least`. */
  predicate AtLeast(f: Field, least: int) { f.Value? && f.units >= least }

  /** A stocked line owns nothing; a line made to order has either a snapshot or a job order. */
  predicate OneOwner(l: LineInput) {
    match l.mode
    case StockedOutput => l.snapshot == None && l.job == None
    case MadeToOrder => (l.snapshot == None) != (l.job == None)
  }

  predicate InRange(l: LineInput) {
    && AtLeast(l.quantity, 1) && AtLeast(l.price, 0) && AtLeast(l.tax, 0) && AtLeast(l.discount, 0)
    && (l.snapshot.Some? ==>
          && |l.snapshot.value| >= 1
          && forall i :: 0 <= i < |l.snapshot.value| ==> AtLeast(l.snapshot.value[i].quantity, 1))
  }

  /** A line by itself: first a missing unit is looked for, then a wrong owner, then a figure out of range. */
  lemma LineFaults(l: LineInput)
    ensures CheckLine(l) == Some(ConsumptionOwnerInvalid) <==> l.uom != "" && !OneOwner(l)
    ensures CheckLine(l) == None <==> l.uom != "" && OneOwner(l) && InRange(l)
    ensures CheckLine(l) == Some(Validation) <==> l.uom == "" || (OneOwner(l) && !InRange(l))
  {
    if l.snapshot.Some? {
      var s := l.snapshot.value;
      if exists i :: 0 <= i < |s| && !AtLeast(s[i].quantity, 1) {
        var i :| 0 <= i < |s| && !AtLeast(s[i].quantity, 1);
        assert s[i] in s;
      }
    }
  }

  /** The first faulty line gives its fault to the whole request. */
  lemma {:induction false} FirstFaultMeans(lines: seq<LineInput>, e: Error)
    ensures CheckAll(lines) == Some(e) <==>
      exists n :: 0 <= n < |lines| && FaultAt(lines, n, e)
    ensures CheckAll(lines) == None <==> forall i :: 0 <= i < |lines| ==> CheckLine(lines[i]) == None
  {
    if lines != [] {
      var m := |lines| - 1;
      FirstFaultMeans(lines[..m], e);
      assert forall n :: 0 <= n < m ==> (FaultAt(lines[..m], n, e) <==> FaultAt(lines, n, e));
      if CheckAll(lines) == Some(e) && CheckAll(lines[..m]).None? { assert FaultAt(lines, m, e); }
      if CheckAll(lines[..m]) == Some(e) {
        var n :| 0 <= n < m && FaultAt(lines[..m], n, e);
        assert FaultAt(lines, n, e);
      }
    }
  }

  predicate FaultAt(lines: seq<LineInput>, n: nat, e: Error)
    requires n < |lines|
  {
    CheckLine(lines[n]) == Some(e) && forall i :: 0 <= i < n ==> CheckLine(lines[i]) == None
  }

  /** "base", or something followed by ":base". */
  ghost predicate NamesBase(uom: string) { uom == "base" || exists front :: uom == front + ":base" }

  /** The factor of a unit: one for the item's own, the conversion on file for another, none for the name "base". */
  lemma FactorMeans(cat: Catalogue, l: LineInput, factor: int)
    ensures TakenForBase(l.uom) <==> NamesBase(l.uom)
    ensures FactorOf(cat, l) == Some(factor) <==>
      && !NamesBase(l.uom) && l.item in cat.units
      && (cat.units[l.item] == l.uom ==> factor == 100_000_000)
      && (cat.units[l.item] != l.uom ==>
            (l.item, l.uom) in cat.conversions && cat.conversions[(l.item, l.uom)] == factor)
  {
    if TakenForBase(l.uom) && l.uom != "base" {
      assert l.uom == l.uom[..|l.uom| - 5] + ":base";
    }
  }

  /** A job order must exist, be of the same outlet, and make the item when it says what it makes. */
  lemma JobMeans(cat: Catalogue, location: Id, l: LineInput)
    ensures var r, named := CheckJob(cat, location, l), l.job.Some? && l.job.value in cat.jobs;
      && (r == Some(NotFound) <==> l.job.Some? && l.job.value !in cat.jobs)
      && (r == Some(CrossOutlet) <==> named && cat.jobs[l.job.value].location != location)
      && (r == Some(Validation) <==>
           && named && cat.jobs[l.job.value].location == location
           && cat.jobs[l.job.value].outputItem.Some? && cat.jobs[l.job.value].outputItem != Some(l.item))
      && (l.job == None ==> r == None)
      && (named && cat.jobs[l.job.value] in {Job(location, None), Job(location, Some(l.item))} ==> r == None)
  {
  }

  /** A line that passed the checks is refused for its job order, then its unit, then a negative total. */
  lemma ResolveLineRefused(cat: Catalogue, location: Id, l: LineInput, lineNo: nat)
    requires PositiveFactors(cat) && CheckLine(l).None?
    ensures Readable(l)
    ensures var r, job, factor := ResolveLine(cat, location, l, lineNo), CheckJob(cat, location, l), FactorOf(cat, l);
      var exact := factor.Some? && exists base: int :: base * 100_000_000 == l.quantity.units * factor.value;
      && (job.Some? ==> r == Err(job.value))
      && (job.None? && !exact ==> r == Err(UomMismatch))
      && (job.None? && exact ==>
           (r == Err(Validation) <==> Gross(l.quantity.units, l.price.units) + l.tax.units < l.discount.units))
  {
    if FactorOf(cat, l).Some? {
      var product := l.quantity.units * FactorOf(cat, l).value;
      PositiveProduct(l.quantity.units, FactorOf(cat, l).value);
      ExactDivision(product, FACTOR_ONE);
    }
  }

  /** Every component and item must be active, and the item must have a unit. */
  predicate AllKnown(cat: Catalogue, lines: seq<LineInput>) {
    forall i :: 0 <= i < |lines| ==>
      && lines[i].item in cat.active && lines[i].item in cat.units
      && (lines[i].snapshot.Some? ==>
            forall j :: 0 <= j < |lines[i].snapshot.value| ==> lines[i].snapshot.value[j].item in cat.active)
  }

  /** Every unit that is looked up has a factor. */
  predicate AllConvert(cat: Catalogue, lines: seq<LineInput>) {
    forall i :: 0 <= i < |lines| ==> TakenForBase(lines[i].uom) || FactorOf(cat, lines[i]).Some?
  }

  /** The whole request, in the order its passes are made: size, lines, items, units, and then line by line. */
  lemma ResolveRefused(cat: Catalogue, location: Id, lines: seq<LineInput>)
    ensures var r, sized := Resolve(cat, location, lines), 1 <= |lines| <= 100;
      && (!sized ==> r == Err(Validation))
      && (sized && CheckAll(lines).Some? ==> r == Err(CheckAll(lines).value))
      && (sized && CheckAll(lines).None? && !AllKnown(cat, lines) ==> r == Err(Validation))
      && (sized && CheckAll(lines).None? && AllKnown(cat, lines) && !AllConvert(cat, lines) ==> r == Err(UomMismatch))
  {
    if !AllKnown(cat, lines) {
      var i :| 0 <= i < |lines| && !(
        && lines[i].item in cat.active && lines[i].item in cat.units
        && (lines[i].snapshot.Some? ==>
              forall j :: 0 <= j < |lines[i].snapshot.value| ==> lines[i].snapshot.value[j].item in cat.active));
      assert lines[i] in lines && !KnownItems(cat, lines[i]);
    } else {
      forall l | l in lines ensures KnownItems(cat, l) {
        var i :| 0 <= i < |lines| && lines[i] == l;
      }
    }
    if !AllConvert(cat, lines) {
      var i :| 0 <= i < |lines| && !(TakenForBase(lines[i].uom) || FactorOf(cat, lines[i]).Some?);
      assert lines[i] in lines;
    }
  }

  // ---------------------------------------------------------------------------
  // The passes of the source

  method FirstFault(lines: seq<LineInput>) returns (fault: Option<Error>)
    ensures fault == CheckAll(lines)
  {
    for i := 0 to |lines|
      invariant CheckAll(lines[..i]).None?
    {
      assert lines[..i + 1][..i] == lines[..i];
      fault := CheckLine(lines[i]);
      if fault.Some? {
        FaultStays(lines, i);
        return fault;
      }
    }
    assert lines[..|lines|] == lines;
    return None;
  }

  lemma {:induction false} FaultStays(lines: seq<LineInput>, i: nat)
    requires i < |lines| && CheckAll(lines[..i + 1]).Some?
    ensures CheckAll(lines) == CheckAll(lines[..i + 1])
  {
    if i + 1 < |lines| {
      var n := |lines| - 1;
      assert lines[..n][..i + 1] == lines[..i + 1];
      FaultStays(lines[..n], i);
    } else {
      assert lines[..i + 1] == lines;
    }
  }

  method ResolveLines(cat: Catalogue, location: Id, lines: seq<LineInput>) returns (r: Result<seq<ResolvedLine>, Error>)
    requires forall l :: l in lines ==> Readable(l)
    ensures r == ResolveAll(cat, location, lines)
  {
    var resolved: seq<ResolvedLine> := [];
    for i := 0 to |lines|
      invariant ResolveAll(cat, location, lines[..i]) == Ok(resolved)
    {
      assert lines[..i + 1][..i] == lines[..i];
      assert lines[i] in lines;
      var line := ResolveLine(cat, location, lines[i], i + 1);
      if line.Err? {
        ErrorStays(cat, location, lines, i);
        return Err(line.error);
      }
      resolved := resolved + [line.value];
    }
    assert lines[..|lines|] == lines;
    return Ok(resolved);
  }

  lemma {:induction false} ErrorStays(cat: Catalogue, location: Id, lines: seq<LineInput>, i: nat)
    requires forall l :: l in lines ==> Readable(l)
    requires i < |lines| && ResolveAll(cat, location, lines[..i + 1]).Err?
    ensures ResolveAll(cat, location, lines) == ResolveAll(cat, location, lines[..i + 1])
  {
    if i + 1 < |lines| {
      var n := |lines| - 1;
      assert lines[..n][..i + 1] == lines[..i + 1];
      ErrorStays(cat, location, lines[..n], i);
    } else {
      assert lines[..i + 1] == lines;
    }
  }

  /** The whole of it: count, per-line faults, items, conversions, then line by line. */
  method ResolveAndValidateLines(cat: Catalogue, location: Id, lines: seq<LineInput>)
      returns (r: Result<seq<ResolvedLine>, Error>)
    ensures r == Resolve(cat, location, lines)
  {
    if |lines| < MIN_LINES || |lines| > Orders.MAX_LINES { return Err(Validation); }
    var fault := FirstFault(lines);
    if fault.Some? { return Err(fault.value); }
    for i := 0 to |lines|
      invariant forall j :: 0 <= j < i ==> KnownItems(cat, lines[j])
    {
      if !KnownItems(cat, lines[i]) {
        assert lines[i] in lines;
        return Err(Validation);
      }
    }
    for i := 0 to |lines|
      invariant forall j :: 0 <= j < i ==> TakenForBase(lines[j].uom) || FactorOf(cat, lines[j]).Some?
    {
      if !TakenForBase(lines[i].uom) && FactorOf(cat, lines[i]).None? {
        assert lines[i] in lines;
        return Err(UomMismatch);
      }
    }
    CheckedReadable(lines);
    r := ResolveLines(cat, location, lines);
  }
}
