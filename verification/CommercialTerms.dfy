/**
 * Effective-dated commercial terms (src/modules/commercial-terms): the two steps that change the term
 * table under its exclusion constraint, and the lookup that freezes rates onto an order. Dates are
 * day numbers, percents are hundredths.
 */
module CommercialTerms {
  import opened Common

  datatype RateType = Base | Marketing

  /** In force from `start` through `end`, or without end. */
  datatype Term = Term(listing: Id, rate: RateType, percent: nat, start: int, end: Option<int>, version: nat)

  datatype Error = Validation | NotFound | TermOverlap | ConstraintViolation

  datatype Step =
    | Create(listing: Id, rate: RateType, percent: nat, start: int, end: Option<int>, listingExists: bool)
    | End(term: Id, date: int)

  predicate Covers(t: Term, date: int) { t.start <= date && (t.end.None? || date <= t.end.value) }

  /** Two terms share a day. */
  predicate RangesMeet(a: Term, b: Term) {
    (a.end.None? || b.start <= a.end.value) && (b.end.None? || a.start <= b.end.value)
  }

  /** What the exclusion constraint compares. */
  predicate Conflict(a: Term, b: Term) { a.listing == b.listing && a.rate == b.rate && RangesMeet(a, b) }

  predicate ValidRange(t: Term) { t.end.None? || t.start <= t.end.value }

  /** Inserting or rewriting row `except` (or none, when it is past the end) as `t`. */
  predicate Excluded(terms: seq<Term>, t: Term, except: nat) {
    exists i :: 0 <= i < |terms| && i != except && Conflict(terms[i], t)
  }

  function CreateTerm(terms: seq<Term>, t: Term, listingExists: bool): Result<seq<Term>, Error> {
    if t.percent > 10_000 || !ValidRange(t) then Err(Validation)
    else if !listingExists then Err(NotFound)
    else if Excluded(terms, t, |terms|) then Err(TermOverlap)
    else Ok(terms + [t])
  }

  /** The end step sets the last day, whether that is earlier or later than before. */
  function EndTerm(terms: seq<Term>, i: Id, date: int): Result<seq<Term>, Error> {
    if i >= |terms| then Err(NotFound)
    else if date < terms[i].start then Err(Validation)
    else
      var t := terms[i].(end := Some(date), version := terms[i].version + 1);
      if Excluded(terms, t, i) then Err(ConstraintViolation) else Ok(terms[i := t])
  }

  function Attempt(terms: seq<Term>, step: Step): Result<seq<Term>, Error> {
    match step
    case Create(listing, rate, percent, start, end, exists_) =>
      CreateTerm(terms, Term(listing, rate, percent, start, end, 1), exists_)
    case End(i, date) => EndTerm(terms, i, date)
  }

  function Next(terms: seq<Term>, step: Step): seq<Term> {
    var r := Attempt(terms, step);
    if r.Ok? then r.value else terms
  }

  function Run(steps: seq<Step>): seq<Term> {
    if steps == [] then [] else Next(Run(steps[..|steps| - 1]), steps[|steps| - 1])
  }

  // ---------------------------------------------------------------------------
  // The lookup

  /** The covering terms of one rate. */
  function Candidates(rows: seq<Term>, rate: RateType, date: int): seq<Term> {
    if rows == [] then [] else
      var n := |rows| - 1;
      Candidates(rows[..n], rate, date) + (if rows[n].rate == rate && Covers(rows[n], date) then [rows[n]] else [])
  }

  /** The candidate that started last. */
  function LatestStart(terms: seq<Term>): Term
    requires terms != []
  {
    if |terms| == 1 then terms[0] else
      var n := |terms| - 1;
      var before := LatestStart(terms[..n]);
      if before.start < terms[n].start then terms[n] else before
  }

  function PickApplicable(rows: seq<Term>, rate: RateType, date: int): Option<nat> {
    var candidates := Candidates(rows, rate, date);
    if candidates == [] then None else Some(LatestStart(candidates).percent)
  }

  function OfListing(terms: seq<Term>, listing: Id): seq<Term> {
    if terms == [] then [] else
      var n := |terms| - 1;
      OfListing(terms[..n], listing) + (if terms[n].listing == listing then [terms[n]] else [])
  }

  /** The answer for one listing, rate and date. */
  function Answer(terms: seq<Term>, listing: Id, rate: RateType, date: int): Option<nat> {
    PickApplicable(OfListing(terms, listing), rate, date)
  }

  datatype Snapshots = Snapshots(commission: Option<nat>, marketing: Option<nat>)

  /** A listing without any term falls back to its legacy commission rate. */
  function ResolveSnapshots(terms: seq<Term>, listing: Id, date: int, legacy: Option<nat>): Snapshots {
    var rows := OfListing(terms, listing);
    if rows == [] then Snapshots(legacy, None)
    else Snapshots(PickApplicable(rows, Base, date), PickApplicable(rows, Marketing, date))
  }

  // ---------------------------------------------------------------------------
  // Every reachable table

  predicate NoOverlap(terms: seq<Term>) {
    forall i, j :: 0 <= i < j < |terms| ==> !Conflict(terms[i], terms[j])
  }

  predicate TableOk(terms: seq<Term>) {
    NoOverlap(terms) && forall i :: 0 <= i < |terms| ==>
      ValidRange(terms[i]) && terms[i].percent <= 10_000 && terms[i].version > 0
  }

  lemma StepKeeps(terms: seq<Term>, step: Step)
    requires TableOk(terms)
    ensures TableOk(Next(terms, step))
  {
    var r := Attempt(terms, step);
    if r.Ok? {
      match step
      case Create(listing, rate, percent, start, end, _) =>
        forall i | 0 <= i < |terms| ensures !Conflict(terms[i], r.value[|terms|]) {}
      case End(k, date) =>
        forall i, j | 0 <= i < j < |terms| ensures !Conflict(r.value[i], r.value[j]) {
          if i == k {
            assert !Conflict(terms[j], r.value[k]);
          } else if j == k {
            assert !Conflict(terms[i], r.value[k]);
          }
        }
    }
  }

  lemma {:induction false} EveryTable(steps: seq<Step>)
    ensures TableOk(Run(steps))
  {
    if steps != [] {
      EveryTable(steps[..|steps| - 1]);
      StepKeeps(Run(steps[..|steps| - 1]), steps[|steps| - 1]);
    }
  }

  /** Covering terms of the same listing and rate meet, so they conflict. */
  /** How often row `i` has had its last day set. */
  function TimesEnded(steps: seq<Step>, i: Id): nat {
    if steps == [] then 0 else
      var n := |steps| - 1;
      TimesEnded(steps[..n], i) +
        if steps[n].End? && steps[n].term == i && Attempt(Run(steps[..n]), steps[n]).Ok? then 1 else 0
  }

  /** A term starts at version 1, and its version counts the end steps it has been through. */
  lemma {:induction false} VersionCountsEnds(steps: seq<Step>, i: Id)
    ensures i < |Run(steps)| ==> Run(steps)[i].version == 1 + TimesEnded(steps, i)
    ensures i >= |Run(steps)| ==> TimesEnded(steps, i) == 0
  {
    if steps != [] { VersionCountsEnds(steps[..|steps| - 1], i); }
  }

  lemma CoveringConflict(a: Term, b: Term, date: int)
    requires a.listing == b.listing && a.rate == b.rate && Covers(a, date) && Covers(b, date)
    ensures Conflict(a, b)
  {
  }

  // ---------------------------------------------------------------------------
  // The lookup as a function of date

  /** The one term of a listing and rate that covers a date, by position. */
  predicate IsTheTerm(terms: seq<Term>, listing: Id, rate: RateType, date: int, i: nat) {
    i < |terms| && terms[i].listing == listing && terms[i].rate == rate && Covers(terms[i], date)
  }

  lemma {:induction false} OfListingMembers(terms: seq<Term>, listing: Id)
    ensures forall t :: t in OfListing(terms, listing) <==> t in terms && t.listing == listing
  {
    if terms != [] {
      var n := |terms| - 1;
      OfListingMembers(terms[..n], listing);
      assert forall t :: t in terms <==> t in terms[..n] || t == terms[n];
    }
  }

  lemma {:induction false} CandidatesMembers(rows: seq<Term>, rate: RateType, date: int)
    ensures forall t :: t in Candidates(rows, rate, date) <==> t in rows && t.rate == rate && Covers(t, date)
  {
    if rows != [] {
      var n := |rows| - 1;
      CandidatesMembers(rows[..n], rate, date);
      assert forall t :: t in rows <==> t in rows[..n] || t == rows[n];
    }
  }

  /** It is one of them, and none of them starts later. */
  lemma {:induction false} LatestStartMember(terms: seq<Term>)
    requires terms != []
    ensures LatestStart(terms) in terms && forall t :: t in terms ==> t.start <= LatestStart(terms).start
  {
    if |terms| > 1 { LatestStartMember(terms[..|terms| - 1]); }
  }

  /** Two equal rows would conflict with each other, so a covering term is unique as a value too. */
  lemma UniqueTerm(terms: seq<Term>, a: Term, b: Term, date: int)
    requires NoOverlap(terms) && a in terms && b in terms
    requires a.listing == b.listing && a.rate == b.rate && Covers(a, date) && Covers(b, date)
    ensures a == b
  {
    var i :| 0 <= i < |terms| && terms[i] == a;
    var j :| 0 <= j < |terms| && terms[j] == b;
    CoveringConflict(a, b, date);
    CoveringConflict(b, a, date);
  }

  /** What a lookup answers: the percent of the one covering term, or nothing. */
  ghost predicate AnswerIs(terms: seq<Term>, listing: Id, rate: RateType, date: int, answer: Option<nat>) {
    && (answer.Some? ==>
         exists t :: t in terms && t.listing == listing && t.rate == rate && Covers(t, date) &&
           answer == Some(t.percent))
    && (answer.None? ==> forall t :: t in terms && t.listing == listing && t.rate == rate ==> !Covers(t, date))
  }

  lemma PickAnswers(terms: seq<Term>, listing: Id, rate: RateType, date: int)
    ensures AnswerIs(terms, listing, rate, date, PickApplicable(OfListing(terms, listing), rate, date))
  {
    var rows := OfListing(terms, listing);
    OfListingMembers(terms, listing);
    CandidatesMembers(rows, rate, date);
    var candidates := Candidates(rows, rate, date);
    if candidates != [] {
      LatestStartMember(candidates);
    } else {
      forall t | t in terms && t.listing == listing && t.rate == rate ensures !Covers(t, date) {
        assert t in rows;
        assert t !in candidates;
      }
    }
  }

  /** Without overlap the answer is determined by the set of rows: there is one at most. */
  lemma AnswerUnique(terms: seq<Term>, others: seq<Term>, listing: Id, rate: RateType, date: int, p: Option<nat>,
      q: Option<nat>)
    requires NoOverlap(terms) && forall t :: t in terms && t.listing == listing && t.rate == rate ==> t in others
    requires forall t :: t in others && t.listing == listing && t.rate == rate ==> t in terms
    requires AnswerIs(terms, listing, rate, date, p) && AnswerIs(others, listing, rate, date, q)
    ensures p == q
  {
    if p.Some? && q.Some? {
      var a :| a in terms && a.listing == listing && a.rate == rate && Covers(a, date) && p == Some(a.percent);
      var b :| b in others && b.listing == listing && b.rate == rate && Covers(b, date) && q == Some(b.percent);
      UniqueTerm(terms, a, b, date);
    }
  }

  /** In every reachable table a date is covered by one term at most per listing and rate. */
  lemma CoveredOnce(steps: seq<Step>, listing: Id, rate: RateType, date: int, i: nat, j: nat)
    requires IsTheTerm(Run(steps), listing, rate, date, i) && IsTheTerm(Run(steps), listing, rate, date, j)
    ensures i == j
  {
    EveryTable(steps);
    CoveringConflict(Run(steps)[i], Run(steps)[j], date);
    CoveringConflict(Run(steps)[j], Run(steps)[i], date);
  }

  /** So the lookup is a function of the date: it gives that term's percent, whatever order the rows come back in. */
  lemma LookupIsFunction(steps: seq<Step>, rows: seq<Term>, listing: Id, rate: RateType, date: int)
    requires multiset(rows) == multiset(OfListing(Run(steps), listing))
    ensures PickApplicable(rows, rate, date) == Answer(Run(steps), listing, rate, date)
    ensures AnswerIs(Run(steps), listing, rate, date, PickApplicable(rows, rate, date))
  {
    EveryTable(steps);
    PickAnswers(Run(steps), listing, rate, date);
    AnyOrder(Run(steps), rows, listing, rate, date);
  }

  lemma AnyOrder(terms: seq<Term>, rows: seq<Term>, listing: Id, rate: RateType, date: int)
    requires NoOverlap(terms) && multiset(rows) == multiset(OfListing(terms, listing))
    ensures PickApplicable(rows, rate, date) == Answer(terms, listing, rate, date)
  {
    SameRows(terms, rows, listing);
    PickAnswers(terms, listing, rate, date);
    PickAnswers(rows, listing, rate, date);
    AnswerUnique(terms, rows, listing, rate, date, Answer(terms, listing, rate, date),
      PickApplicable(rows, rate, date));
  }

  lemma SameRows(terms: seq<Term>, rows: seq<Term>, listing: Id)
    requires multiset(rows) == multiset(OfListing(terms, listing))
    ensures forall t :: t in rows <==> t in terms && t.listing == listing
    ensures OfListing(rows, listing) == rows
  {
    OfListingMembers(terms, listing);
    forall t ensures t in rows <==> t in OfListing(terms, listing) {
      assert t in multiset(rows) <==> t in multiset(OfListing(terms, listing));
    }
    AllOfListing(rows, listing);
  }

  lemma {:induction false} AllOfListing(rows: seq<Term>, listing: Id)
    requires forall t :: t in rows ==> t.listing == listing
    ensures OfListing(rows, listing) == rows
  {
    if rows != [] {
      var n := |rows| - 1;
      AllOfListing(rows[..n], listing);
      assert rows[n] in rows;
      assert rows == rows[..n] + [rows[n]];
    }
  }

  // ---------------------------------------------------------------------------
  // What one step changes

  lemma AnswerFrom(terms: seq<Term>, listing: Id, rate: RateType, date: int, t: Term)
    requires NoOverlap(terms) && t in terms && t.listing == listing && t.rate == rate && Covers(t, date)
    ensures Answer(terms, listing, rate, date) == Some(t.percent)
  {
    PickAnswers(terms, listing, rate, date);
    var a := Answer(terms, listing, rate, date);
    if a.Some? {
      var s :| s in terms && s.listing == listing && s.rate == rate && Covers(s, date) && a == Some(s.percent);
      UniqueTerm(terms, s, t, date);
    }
  }

  lemma AnswerNone(terms: seq<Term>, listing: Id, rate: RateType, date: int)
    requires forall t :: t in terms && t.listing == listing && t.rate == rate ==> !Covers(t, date)
    ensures Answer(terms, listing, rate, date) == None
  {
    PickAnswers(terms, listing, rate, date);
  }

  /** A term of the table, of that listing and rate, in force on the date, with that percent. */
  predicate InForce(terms: seq<Term>, listing: Id, rate: RateType, date: int, percent: nat) {
    exists i :: 0 <= i < |terms| && terms[i].listing == listing && terms[i].rate == rate
      && terms[i].start <= date && (terms[i].end == None || date <= terms[i].end.value) && terms[i].percent == percent
  }

  /**
   * What an order is charged: a listing without any term its legacy rate and no marketing; any other
   * listing the commission of its base term and the marketing of its marketing term in force that day.
   */
  lemma SnapshotsMean(terms: seq<Term>, listing: Id, date: int, legacy: Option<nat>, percent: nat)
    requires NoOverlap(terms)
    ensures var s := ResolveSnapshots(terms, listing, date, legacy);
      var none := forall i :: 0 <= i < |terms| ==> terms[i].listing != listing;
      && (none ==> s == Snapshots(legacy, None))
      && (!none ==>
           && (s.commission == Some(percent) <==> InForce(terms, listing, Base, date, percent))
           && (s.marketing == Some(percent) <==> InForce(terms, listing, Marketing, date, percent)))
  {
    ListedIff(terms, listing);
    AnswerInForce(terms, listing, Base, date, percent);
    AnswerInForce(terms, listing, Marketing, date, percent);
  }

  lemma {:induction false} ListedIff(terms: seq<Term>, listing: Id)
    ensures OfListing(terms, listing) == [] <==> forall i :: 0 <= i < |terms| ==> terms[i].listing != listing
  {
    if terms != [] {
      var n := |terms| - 1;
      ListedIff(terms[..n], listing);
      assert forall i :: 0 <= i < n ==> terms[..n][i] == terms[i];
    }
  }

  lemma AnswerInForce(terms: seq<Term>, listing: Id, rate: RateType, date: int, percent: nat)
    requires NoOverlap(terms)
    ensures Answer(terms, listing, rate, date) == Some(percent) <==> InForce(terms, listing, rate, date, percent)
  {
    PickAnswers(terms, listing, rate, date);
    if InForce(terms, listing, rate, date, percent) {
      var i :| 0 <= i < |terms| && terms[i].listing == listing && terms[i].rate == rate
        && terms[i].start <= date && (terms[i].end == None || date <= terms[i].end.value)
        && terms[i].percent == percent;
      AnswerFrom(terms, listing, rate, date, terms[i]);
    }
    var a := Answer(terms, listing, rate, date);
    if a == Some(percent) {
      var s :| s in terms && s.listing == listing && s.rate == rate && Covers(s, date) && a == Some(s.percent);
      var i :| 0 <= i < |terms| && terms[i] == s;
    }
  }

  /** Some day lies in the ranges of both. */
  ghost predicate ShareDay(a: Term, b: Term) {
    exists day: int :: InRange(a, day) && InRange(b, day)
  }

  /** The terms are of one listing and rate, and some day lies in the ranges of both. */
  ghost predicate SharesDay(a: Term, b: Term) { a.listing == b.listing && a.rate == b.rate && ShareDay(a, b) }

  predicate InRange(t: Term, day: int) { t.start <= day && (t.end.Some? ==> day <= t.end.value) }

  lemma MeetIsShareDay(a: Term, b: Term)
    requires ValidRange(a) && ValidRange(b)
    ensures RangesMeet(a, b) <==> ShareDay(a, b)
  {
    if RangesMeet(a, b) {
      var later := if a.start < b.start then b.start else a.start;
      assert InRange(a, later) && InRange(b, later);
    }
  }

  /**
   * A create is refused for a percent above 100 or a range that ends before it starts, then for an unknown
   * listing, then exactly when a term of the same listing and rate shares a day with it; else the term is filed.
   */
  lemma CreateFailsIff(terms: seq<Term>, t: Term, listingExists: bool)
    requires TableOk(terms)
    ensures var r := CreateTerm(terms, t, listingExists);
      var valid := t.percent <= 10_000 && (t.end.Some? ==> t.start <= t.end.value);
      var clash := exists i :: 0 <= i < |terms| && SharesDay(terms[i], t);
      && (r == Err(Validation) <==> !valid)
      && (r == Err(NotFound) <==> valid && !listingExists)
      && (r == Err(TermOverlap) <==> valid && listingExists && clash)
      && (r.Ok? <==> valid && listingExists && !clash)
      && (r.Ok? ==> r.value == terms + [t])
  {
    if ValidRange(t) {
      forall i | 0 <= i < |terms| ensures RangesMeet(terms[i], t) <==> ShareDay(terms[i], t) {
        MeetIsShareDay(terms[i], t);
      }
      if exists i :: 0 <= i < |terms| && SharesDay(terms[i], t) {
        var i :| 0 <= i < |terms| && SharesDay(terms[i], t);
        assert Conflict(terms[i], t);
      }
    }
  }

  /** A committed create answers with the new term inside its range and as before everywhere else. */
  lemma CreateAnswers(terms: seq<Term>, t: Term, listing: Id, rate: RateType, date: int)
    requires TableOk(terms) && t.version > 0 && CreateTerm(terms, t, true).Ok?
    ensures Answer(terms + [t], listing, rate, date) ==
      if t.listing == listing && t.rate == rate && Covers(t, date) then Some(t.percent)
      else Answer(terms, listing, rate, date)
  {
    var after := terms + [t];
    assert NoOverlap(after) by {
      forall i | 0 <= i < |terms| ensures !Conflict(terms[i], t) {}
    }
    if t.listing == listing && t.rate == rate && Covers(t, date) {
      assert after[|terms|] == t;
      AnswerFrom(after, listing, rate, date, t);
    } else {
      PickAnswers(terms, listing, rate, date);
      var a := Answer(terms, listing, rate, date);
      if a.Some? {
        var s :| s in terms && s.listing == listing && s.rate == rate && Covers(s, date) && a == Some(s.percent);
        AnswerFrom(after, listing, rate, date, s);
      } else {
        AnswerNone(after, listing, rate, date);
      }
    }
  }

  /**
   * Once a listing has any term, creating another changes no snapshot outside its range. The very
   * first term ends the legacy fallback, so it changes uncovered dates exactly when there was a legacy rate.
   */
  lemma CreateChangesSnapshots(terms: seq<Term>, t: Term, date: int, legacy: Option<nat>)
    requires TableOk(terms) && t.version > 0 && CreateTerm(terms, t, true).Ok? && !Covers(t, date)
    ensures ResolveSnapshots(terms + [t], t.listing, date, legacy) == ResolveSnapshots(terms, t.listing, date, legacy)
      <==> OfListing(terms, t.listing) != [] || legacy.None?
  {
    var after := terms + [t];
    assert after[..|terms|] == terms;
    CreateAnswers(terms, t, t.listing, Base, date);
    CreateAnswers(terms, t, t.listing, Marketing, date);
    if OfListing(terms, t.listing) == [] {
      OfListingMembers(terms, t.listing);
      AnswerNone(terms, t.listing, Base, date);
      AnswerNone(terms, t.listing, Marketing, date);
    }
  }

  /**
   * A committed end step: within the term's new range the answer is its percent, on days it used to
   * cover and no longer does there is none, and every other answer stands.
   */
  lemma EndAnswers(terms: seq<Term>, i: Id, date: int, listing: Id, rate: RateType, day: int)
    requires TableOk(terms) && EndTerm(terms, i, date).Ok?
    ensures i < |terms|
    ensures var own := terms[i].listing == listing && terms[i].rate == rate;
      Answer(EndTerm(terms, i, date).value, listing, rate, day) ==
        if own && terms[i].start <= day <= date then Some(terms[i].percent)
        else if own && Covers(terms[i], day) then None
        else Answer(terms, listing, rate, day)
  {
    var after := EndTerm(terms, i, date).value;
    EndKeepsOk(terms, i, date);
    if terms[i].listing == listing && terms[i].rate == rate && terms[i].start <= day <= date {
      AnswerFrom(after, listing, rate, day, after[i]);
    } else if terms[i].listing == listing && terms[i].rate == rate && Covers(terms[i], day) {
      forall t | t in after && t.listing == listing && t.rate == rate ensures !Covers(t, day) {
        var j :| 0 <= j < |after| && after[j] == t;
        if j != i && Covers(t, day) {
          CoveringConflict(terms[i], terms[j], day);
          CoveringConflict(terms[j], terms[i], day);
        }
      }
      AnswerNone(after, listing, rate, day);
    } else {
      EndElsewhere(terms, i, date, listing, rate, day);
    }
  }

  lemma EndKeepsOk(terms: seq<Term>, i: Id, date: int)
    requires TableOk(terms) && EndTerm(terms, i, date).Ok?
    ensures TableOk(EndTerm(terms, i, date).value)
  {
    StepKeeps(terms, End(i, date));
  }

  lemma EndElsewhere(terms: seq<Term>, i: Id, date: int, listing: Id, rate: RateType, day: int)
    requires TableOk(terms) && EndTerm(terms, i, date).Ok?
    requires !(terms[i].listing == listing && terms[i].rate == rate &&
      (Covers(terms[i], day) || terms[i].start <= day <= date))
    ensures Answer(EndTerm(terms, i, date).value, listing, rate, day) == Answer(terms, listing, rate, day)
  {
    var after := EndTerm(terms, i, date).value;
    EndKeepsOk(terms, i, date);
    PickAnswers(terms, listing, rate, day);
    var a := Answer(terms, listing, rate, day);
    if a.Some? {
      var s :| s in terms && s.listing == listing && s.rate == rate && Covers(s, day) && a == Some(s.percent);
      var j :| 0 <= j < |terms| && terms[j] == s;
      assert after[j] == s;
      AnswerFrom(after, listing, rate, day, s);
    } else {
      forall t | t in after && t.listing == listing && t.rate == rate ensures !Covers(t, day) {
        var j :| 0 <= j < |after| && after[j] == t;
        assert j != i ==> terms[j] == t;
      }
      AnswerNone(after, listing, rate, day);
    }
  }

  /** Shortening a term changes no answer up to its new end. */
  lemma ShorteningIsSafe(terms: seq<Term>, i: Id, date: int, listing: Id, rate: RateType, day: int)
    requires TableOk(terms) && EndTerm(terms, i, date).Ok? && day <= date
    requires terms[i].end.None? || date <= terms[i].end.value
    ensures Answer(EndTerm(terms, i, date).value, listing, rate, day) == Answer(terms, listing, rate, day)
  {
    EndAnswers(terms, i, date, listing, rate, day);
    if terms[i].listing == listing && terms[i].rate == rate && terms[i].start <= day {
      AnswerFrom(terms, listing, rate, day, terms[i]);
    }
  }

  /**
   * The end step may also lengthen a term. It then runs into the constraint exactly when the longer
   * range meets another term of the same listing and rate; shortening never does.
   */
  lemma EndFailsIff(terms: seq<Term>, i: Id, date: int)
    requires TableOk(terms) && i < |terms| && terms[i].start <= date
    ensures EndTerm(terms, i, date).Err? ==> EndTerm(terms, i, date) == Err(ConstraintViolation)
    ensures var before := terms[i];
      var ended := Term(before.listing, before.rate, before.percent, before.start, Some(date), before.version + 1);
      EndTerm(terms, i, date).Ok? ==> EndTerm(terms, i, date) == Ok(terms[i := ended])
    ensures EndTerm(terms, i, date).Err? <==>
      terms[i].end.Some? && terms[i].end.value < date
      && exists j :: 0 <= j < |terms| && j != i && terms[j].listing == terms[i].listing &&
           terms[j].rate == terms[i].rate
           && terms[i].end.value < terms[j].start <= date
  {
    var t := terms[i].(end := Some(date), version := terms[i].version + 1);
    if EndTerm(terms, i, date).Err? {
      var j :| 0 <= j < |terms| && j != i && Conflict(terms[j], t);
      NoConflictBefore(terms, i, j);
    } else if terms[i].end.Some? && terms[i].end.value < date {
      forall j | 0 <= j < |terms| && j != i && terms[j].listing == terms[i].listing && terms[j].rate == terms[i].rate
        ensures !(terms[i].end.value < terms[j].start <= date)
      {
        assert !Conflict(terms[j], t);
      }
    }
  }

  /** Other refusals of an end step: a row that does not exist, then a last day before the first. */
  lemma EndRefused(terms: seq<Term>, i: Id, date: int)
    ensures EndTerm(terms, i, date) == Err(NotFound) <==> i >= |terms|
    ensures EndTerm(terms, i, date) == Err(Validation) <==> i < |terms| && date < terms[i].start
  {
  }

  lemma NoConflictBefore(terms: seq<Term>, i: nat, j: nat)
    requires NoOverlap(terms) && i < |terms| && j < |terms| && i != j
    ensures !Conflict(terms[i], terms[j]) && !Conflict(terms[j], terms[i])
  {
  }

  /** Ending a term later than before is accepted, and fills days that had no answer. */
  lemma EndCanLengthen()
    ensures var before := [Term(0, Base, 2500, 1, Some(10), 1)];
      && EndTerm(before, 0, 20).Ok?
      && Answer(before, 0, Base, 15) == None && Answer(EndTerm(before, 0, 20).value, 0, Base, 15) == Some(2500)
  {
    var before := [Term(0, Base, 2500, 1, Some(10), 1)];
    EndAnswers(before, 0, 20, 0, Base, 15);
    AnswerNone(before, 0, Base, 15);
  }

  // ---------------------------------------------------------------------------
  // The term table

  class TermTable {
    var terms: seq<Term>

    constructor ()
      ensures terms == Run([])
    {
      terms := [];
    }

    method FindConflict(t: Term, except: nat) returns (found: bool)
      ensures found == Excluded(terms, t, except)
    {
      for i := 0 to |terms|
        invariant forall j :: 0 <= j < i && j != except ==> !Conflict(terms[j], t)
      {
        if i != except && Conflict(terms[i], t) { return true; }
      }
      return false;
    }

    method PostTerm(t: Term, listingExists: bool) returns (e: Option<Error>)
      modifies this
      ensures var r := CreateTerm(old(terms), t, listingExists);
        terms == (if r.Ok? then r.value else old(terms)) && e == (if r.Ok? then None else Some(r.error))
    {
      if t.percent > 10_000 || !ValidRange(t) { return Some(Validation); }
      if !listingExists { return Some(NotFound); }
      var conflict := FindConflict(t, |terms|);
      if conflict { return Some(TermOverlap); }
      terms := terms + [t];
      return None;
    }

    method PatchEnd(i: Id, date: int) returns (e: Option<Error>)
      modifies this
      ensures var r := EndTerm(old(terms), i, date);
        terms == (if r.Ok? then r.value else old(terms)) && e == (if r.Ok? then None else Some(r.error))
    {
      if i >= |terms| { return Some(NotFound); }
      if date < terms[i].start { return Some(Validation); }
      var t := terms[i].(end := Some(date), version := terms[i].version + 1);
      var conflict := FindConflict(t, i);
      if conflict { return Some(ConstraintViolation); }
      terms := terms[i := t];
      return None;
    }
  }
}
