/**
 * Attendance (src/modules/ems/attendance-shared.ts): the punch gate, and the pairing of punches into
 * one entry per employee and business day. Days are day numbers of BusinessTime; a row's captured
 * time is taken to be the instant the gate read.
 */
module Attendance {
  import opened Common
  import opened BusinessTime

  datatype Kind = TimeIn | TimeOut

  datatype Punch = Punch(employee: Id, kind: Kind, at: int, photo: Id)

  /** One side of an entry: when, and the photo taken. */
  datatype Stamp = Stamp(at: int, photo: Id)

  datatype Status = Complete | Open | Forfeited

  datatype Entry = Entry(employee: Id, day: int, timeIn: Option<Stamp>, timeOut: Option<Stamp>, minutes: Option<int>,
      status: Status)

  const FORFEIT_MS := 86_400_000

  function DayOf(c: Clock, p: Punch): int { BusinessDayNumber(c, p.at) }

  // ---------------------------------------------------------------------------
  // Pairing

  /** Position of the entry for an employee and day, or the length when there is none. */
  function IndexOf(entries: seq<Entry>, employee: Id, day: int): (i: nat)
    ensures i <= |entries|
    ensures i < |entries| ==> entries[i].employee == employee && entries[i].day == day
    ensures forall j :: 0 <= j < i ==> !(entries[j].employee == employee && entries[j].day == day)
  {
    if entries == [] || (entries[0].employee == employee && entries[0].day == day) then 0
    else IndexOf(entries[1..], employee, day) + 1
  }

  /** The first TIME_IN of an entry is kept, the last TIME_OUT wins. */
  function Stamped(e: Entry, p: Punch): Entry {
    if p.kind == TimeOut then e.(timeOut := Some(Stamp(p.at, p.photo)))
    else if e.timeIn.None? then e.(timeIn := Some(Stamp(p.at, p.photo)))
    else e
  }

  function AddPunch(c: Clock, entries: seq<Entry>, p: Punch): seq<Entry> {
    var i := IndexOf(entries, p.employee, DayOf(c, p));
    if i < |entries| then entries[i := Stamped(entries[i], p)]
    else entries + [Stamped(Entry(p.employee, DayOf(c, p), None, None, None, Open), p)]
  }

  function Collected(c: Clock, rows: seq<Punch>): seq<Entry> {
    if rows == [] then [] else AddPunch(c, Collected(c, rows[..|rows| - 1]), rows[|rows| - 1])
  }

  /** Whole minutes, rounded half up. */
  function RoundedMinutes(ms: int): int { (ms + 30_000) / 60_000 }

  function Closed(e: Entry, now: int): Entry {
    if e.timeIn.Some? && e.timeOut.Some? then
      e.(minutes := Some(RoundedMinutes(e.timeOut.value.at - e.timeIn.value.at)), status := Complete)
    else if e.timeIn.Some? then e.(status := if now - e.timeIn.value.at > FORFEIT_MS then Forfeited else Open)
    else e.(status := Complete)
  }

  function Paired(c: Clock, rows: seq<Punch>, now: int): (entries: seq<Entry>)
    ensures |entries| == |Collected(c, rows)|
  {
    var open := Collected(c, rows);
    seq(|open|, i requires 0 <= i < |open| => Closed(open[i], now))
  }

  // ---------------------------------------------------------------------------
  // What pairing means

  predicate Of(c: Clock, p: Punch, employee: Id, day: int, kind: Kind) {
    p.employee == employee && DayOf(c, p) == day && p.kind == kind
  }

  predicate Has(c: Clock, rows: seq<Punch>, employee: Id, day: int, kind: Kind) {
    exists i :: 0 <= i < |rows| && Of(c, rows[i], employee, day, kind)
  }

  /** The stamp of the first row of a kind, or of the last. */
  function FirstOf(c: Clock, rows: seq<Punch>, employee: Id, day: int, kind: Kind): Option<Stamp> {
    if rows == [] then None else
      var n := |rows| - 1;
      var before := FirstOf(c, rows[..n], employee, day, kind);
      if before.None? && Of(c, rows[n], employee, day, kind) then Some(Stamp(rows[n].at, rows[n].photo)) else before
  }

  function LastOf(c: Clock, rows: seq<Punch>, employee: Id, day: int, kind: Kind): Option<Stamp> {
    if rows == [] then None else
      var n := |rows| - 1;
      if Of(c, rows[n], employee, day, kind) then Some(Stamp(rows[n].at, rows[n].photo))
      else LastOf(c, rows[..n], employee, day, kind)
  }

  predicate Ordered(rows: seq<Punch>) {
    forall i, j :: 0 <= i < j < |rows| ==> rows[i].at <= rows[j].at
  }

  /** A stamp is one of the punches of its kind, and no later (or no earlier) than any other. */
  ghost predicate IsEarliest(c: Clock, rows: seq<Punch>, employee: Id, day: int, kind: Kind, s: Stamp) {
    && (exists i :: 0 <= i < |rows| && Of(c, rows[i], employee, day, kind) && s == Stamp(rows[i].at, rows[i].photo))
    && (forall i :: 0 <= i < |rows| && Of(c, rows[i], employee, day, kind) ==> s.at <= rows[i].at)
  }

  ghost predicate IsLatest(c: Clock, rows: seq<Punch>, employee: Id, day: int, kind: Kind, s: Stamp) {
    && (exists i :: 0 <= i < |rows| && Of(c, rows[i], employee, day, kind) && s == Stamp(rows[i].at, rows[i].photo))
    && (forall i :: 0 <= i < |rows| && Of(c, rows[i], employee, day, kind) ==> rows[i].at <= s.at)
  }

  lemma {:induction false} FirstIsEarliest(c: Clock, rows: seq<Punch>, employee: Id, day: int, kind: Kind)
    requires Ordered(rows)
    ensures var s := FirstOf(c, rows, employee, day, kind);
      && (s.Some? <==> Has(c, rows, employee, day, kind))
      && (s.Some? ==> IsEarliest(c, rows, employee, day, kind, s.value))
  {
    if rows != [] {
      var n := |rows| - 1;
      FirstIsEarliest(c, rows[..n], employee, day, kind);
      var before := FirstOf(c, rows[..n], employee, day, kind);
      if before.Some? {
        var i :| 0 <= i < n && Of(c, rows[..n][i], employee, day, kind) &&
          before.value == Stamp(rows[..n][i].at, rows[..n][i].photo);
        assert Of(c, rows[i], employee, day, kind) && before.value == Stamp(rows[i].at, rows[i].photo);
        forall j | 0 <= j < |rows| && Of(c, rows[j], employee, day, kind) ensures before.value.at <= rows[j].at {
          if j < n { assert Of(c, rows[..n][j], employee, day, kind); }
        }
      } else {
        forall j | 0 <= j < n ensures !Of(c, rows[j], employee, day, kind) {
          assert !Of(c, rows[..n][j], employee, day, kind);
        }
      }
    }
  }

  lemma {:induction false} LastIsLatest(c: Clock, rows: seq<Punch>, employee: Id, day: int, kind: Kind)
    requires Ordered(rows)
    ensures var s := LastOf(c, rows, employee, day, kind);
      && (s.Some? <==> Has(c, rows, employee, day, kind))
      && (s.Some? ==> IsLatest(c, rows, employee, day, kind, s.value))
  {
    if rows != [] {
      var n := |rows| - 1;
      LastIsLatest(c, rows[..n], employee, day, kind);
      if !Of(c, rows[n], employee, day, kind) {
        var before := LastOf(c, rows[..n], employee, day, kind);
        forall j | 0 <= j < |rows| && Of(c, rows[j], employee, day, kind)
          ensures before.Some? && rows[j].at <= before.value.at
        {
          assert Of(c, rows[..n][j], employee, day, kind);
        }
        if before.Some? {
          var i :| 0 <= i < n && Of(c, rows[..n][i], employee, day, kind) &&
            before.value == Stamp(rows[..n][i].at, rows[..n][i].photo);
          assert Of(c, rows[i], employee, day, kind) && before.value == Stamp(rows[i].at, rows[i].photo);
        }
      }
    }
  }

  predicate DistinctKeys(entries: seq<Entry>) {
    forall i, j :: 0 <= i < j < |entries| ==>
      !(entries[i].employee == entries[j].employee && entries[i].day == entries[j].day)
  }

  /** The entry of a key, before closing: absent without punches, else its first in and last out. */
  function Expected(c: Clock, rows: seq<Punch>, employee: Id, day: int): Entry {
    Entry(employee, day, FirstOf(c, rows, employee, day, TimeIn), LastOf(c, rows, employee, day, TimeOut), None, Open)
  }

  ghost predicate CollectedOk(c: Clock, rows: seq<Punch>, entries: seq<Entry>) {
    && DistinctKeys(entries)
    && (forall i :: 0 <= i < |entries| ==> entries[i] == Expected(c, rows, entries[i].employee, entries[i].day))
    && (forall i :: 0 <= i < |rows| ==> IndexOf(entries, rows[i].employee, DayOf(c, rows[i])) < |entries|)
    && (forall i :: 0 <= i < |entries| ==> entries[i].timeIn.Some? || entries[i].timeOut.Some?)
  }

  lemma IndexAt(entries: seq<Entry>, i: nat)
    requires DistinctKeys(entries) && i < |entries|
    ensures IndexOf(entries, entries[i].employee, entries[i].day) == i
  {
  }

  lemma IndexPresent(entries: seq<Entry>, employee: Id, day: int, i: nat)
    requires i < |entries| && entries[i].employee == employee && entries[i].day == day
    ensures IndexOf(entries, employee, day) < |entries|
  {
  }

  /** A key without an entry has no punches. */
  lemma {:induction false} NoPunches(c: Clock, rows: seq<Punch>, entries: seq<Entry>, employee: Id, day: int,
      kind: Kind)
    requires forall i :: 0 <= i < |rows| ==> IndexOf(entries, rows[i].employee, DayOf(c, rows[i])) < |entries|
    requires IndexOf(entries, employee, day) == |entries|
    ensures FirstOf(c, rows, employee, day, kind) == None && LastOf(c, rows, employee, day, kind) == None
  {
    if rows != [] { NoPunches(c, rows[..|rows| - 1], entries, employee, day, kind); }
  }

  /** One more punch changes what is expected of its own key, as stamping does, and of no other. */
  lemma ExpectedStep(c: Clock, rows: seq<Punch>, employee: Id, day: int)
    requires rows != []
    ensures var n := |rows| - 1;
      Expected(c, rows, employee, day) ==
        if rows[n].employee == employee && DayOf(c, rows[n]) == day
        then Stamped(Expected(c, rows[..n], employee, day), rows[n]) else Expected(c, rows[..n], employee, day)
  {
  }

  lemma AddPunchIndex(c: Clock, rows: seq<Punch>, entries: seq<Entry>, p: Punch, employee: Id, day: int)
    requires IndexOf(entries, employee, day) < |entries| || (p.employee == employee && DayOf(c, p) == day)
    ensures IndexOf(AddPunch(c, entries, p), employee, day) < |AddPunch(c, entries, p)|
  {
    var after := AddPunch(c, entries, p);
    var j := IndexOf(entries, employee, day);
    IndexPresent(after, employee, day, if j < |entries| then j else IndexOf(entries, p.employee, DayOf(c, p)));
  }

  lemma AddPunchDistinct(c: Clock, entries: seq<Entry>, p: Punch)
    requires DistinctKeys(entries)
    ensures DistinctKeys(AddPunch(c, entries, p))
    ensures forall i :: 0 <= i < |entries| ==>
      AddPunch(c, entries, p)[i].employee == entries[i].employee && AddPunch(c, entries, p)[i].day == entries[i].day
  {
  }

  /** Every entry after the punch is what is expected of its key. */
  lemma AddPunchExpected(c: Clock, rows: seq<Punch>, entries: seq<Entry>, i: nat)
    requires rows != [] && CollectedOk(c, rows[..|rows| - 1], entries)
    requires i < |AddPunch(c, entries, rows[|rows| - 1])|
    ensures var e := AddPunch(c, entries, rows[|rows| - 1])[i];
      e == Expected(c, rows, e.employee, e.day) && (e.timeIn.Some? || e.timeOut.Some?)
  {
    var n := |rows| - 1;
    var p := rows[n];
    var at := IndexOf(entries, p.employee, DayOf(c, p));
    var e := AddPunch(c, entries, p)[i];
    ExpectedStep(c, rows, e.employee, e.day);
    if i == |entries| {
      NoPunches(c, rows[..n], entries, p.employee, DayOf(c, p), TimeIn);
      NoPunches(c, rows[..n], entries, p.employee, DayOf(c, p), TimeOut);
    } else if i == at {
      assert e == Stamped(entries[i], p);
    } else {
      IndexAt(entries, i);
      assert e == entries[i];
    }
  }

  lemma AddPunchOk(c: Clock, rows: seq<Punch>, entries: seq<Entry>)
    requires rows != [] && CollectedOk(c, rows[..|rows| - 1], entries)
    ensures CollectedOk(c, rows, AddPunch(c, entries, rows[|rows| - 1]))
  {
    var n := |rows| - 1;
    var after := AddPunch(c, entries, rows[n]);
    AddPunchDistinct(c, entries, rows[n]);
    forall i | 0 <= i < |after|
      ensures after[i] == Expected(c, rows, after[i].employee, after[i].day) &&
        (after[i].timeIn.Some? || after[i].timeOut.Some?)
    {
      AddPunchExpected(c, rows, entries, i);
    }
    forall i | 0 <= i < |rows| ensures IndexOf(after, rows[i].employee, DayOf(c, rows[i])) < |after| {
      assert i < n ==> rows[..n][i] == rows[i];
      AddPunchIndex(c, rows, entries, rows[n], rows[i].employee, DayOf(c, rows[i]));
    }
  }

  lemma {:induction false} CollectedIsOk(c: Clock, rows: seq<Punch>)
    ensures CollectedOk(c, rows, Collected(c, rows))
  {
    if rows != [] {
      CollectedIsOk(c, rows[..|rows| - 1]);
      AddPunchOk(c, rows, Collected(c, rows[..|rows| - 1]));
    }
  }

  /** What one entry of the pairing says, in terms of the punches of its employee and day. */
  ghost predicate EntryFaithful(c: Clock, rows: seq<Punch>, now: int, e: Entry) {
    && (e.timeIn.Some? <==> Has(c, rows, e.employee, e.day, TimeIn))
    && (e.timeIn.Some? ==> IsEarliest(c, rows, e.employee, e.day, TimeIn, e.timeIn.value))
    && (e.timeOut.Some? <==> Has(c, rows, e.employee, e.day, TimeOut))
    && (e.timeOut.Some? ==> IsLatest(c, rows, e.employee, e.day, TimeOut, e.timeOut.value))
    && (e.minutes.Some? <==> e.timeIn.Some? && e.timeOut.Some?)
    && (e.minutes.Some? ==> NearestMinute(e.timeOut.value.at - e.timeIn.value.at, e.minutes.value))
    && (e.status == Complete <==> e.timeOut.Some?)
    && (e.status == Forfeited <==> e.timeOut.None? && e.timeIn.Some? && now - e.timeIn.value.at > 86_400_000)
  }

  /** Within half a minute, ties rounded up. */
  predicate NearestMinute(ms: int, minutes: int) { minutes * 60_000 - 30_000 <= ms < minutes * 60_000 + 30_000 }

  lemma RoundedIsNearest(ms: int)
    ensures NearestMinute(ms, RoundedMinutes(ms))
  {
  }

  lemma ClosedFaithful(c: Clock, rows: seq<Punch>, now: int, e: Entry)
    requires Ordered(rows) && e == Expected(c, rows, e.employee, e.day) && (e.timeIn.Some? || e.timeOut.Some?)
    ensures EntryFaithful(c, rows, now, Closed(e, now))
  {
    FirstIsEarliest(c, rows, e.employee, e.day, TimeIn);
    LastIsLatest(c, rows, e.employee, e.day, TimeOut);
    assert e.timeIn == FirstOf(c, rows, e.employee, e.day, TimeIn) &&
      e.timeOut == LastOf(c, rows, e.employee, e.day, TimeOut);
    if e.timeIn.Some? && e.timeOut.Some? { RoundedIsNearest(e.timeOut.value.at - e.timeIn.value.at); }
  }

  /** An employee and day with a punch has an entry. */
  ghost predicate Covered(c: Clock, entries: seq<Entry>, p: Punch) {
    exists j :: 0 <= j < |entries| && entries[j].employee == p.employee && entries[j].day == DayOf(c, p)
  }

  /**
   * The pairing of time-ordered punches: exactly one entry for every employee and day that has any,
   * with the earliest TIME_IN, the latest TIME_OUT, the minutes between them, and the stated status.
   */
  lemma PairingMeans(c: Clock, rows: seq<Punch>, now: int)
    requires Ordered(rows)
    ensures var entries := Paired(c, rows, now);
      && DistinctKeys(entries)
      && (forall i :: 0 <= i < |entries| ==> EntryFaithful(c, rows, now, entries[i]))
      && (forall i :: 0 <= i < |entries| ==> entries[i].timeIn.Some? || entries[i].timeOut.Some?)
      && (forall i :: 0 <= i < |rows| ==> Covered(c, entries, rows[i]))
  {
    var entries := Paired(c, rows, now);
    PairedDistinct(c, rows, now);
    forall i | 0 <= i < |entries|
      ensures EntryFaithful(c, rows, now, entries[i]) && (entries[i].timeIn.Some? || entries[i].timeOut.Some?)
    {
      PairedAt(c, rows, now, i);
    }
    forall i | 0 <= i < |rows| ensures Covered(c, entries, rows[i]) { PairedCovers(c, rows, now, i); }
  }

  lemma PairedDistinct(c: Clock, rows: seq<Punch>, now: int)
    ensures DistinctKeys(Paired(c, rows, now))
  {
    CollectedIsOk(c, rows);
  }

  lemma PairedAt(c: Clock, rows: seq<Punch>, now: int, i: nat)
    requires Ordered(rows) && i < |Paired(c, rows, now)|
    ensures var e := Paired(c, rows, now)[i]; EntryFaithful(c, rows, now, e) && (e.timeIn.Some? || e.timeOut.Some?)
  {
    CollectedIsOk(c, rows);
    ClosedFaithful(c, rows, now, Collected(c, rows)[i]);
  }

  lemma PairedCovers(c: Clock, rows: seq<Punch>, now: int, i: nat)
    requires i < |rows|
    ensures Covered(c, Paired(c, rows, now), rows[i])
  {
    CollectedIsOk(c, rows);
    var j := IndexOf(Collected(c, rows), rows[i].employee, DayOf(c, rows[i]));
    assert Paired(c, rows, now)[j].employee == rows[i].employee && Paired(c, rows, now)[j].day == DayOf(c, rows[i]);
  }

  // ---------------------------------------------------------------------------
  // The punch gate

  datatype Error = PayloadTooLarge | UnknownEmployee | InactiveEmployee | AlreadyTimedIn | NotTimedIn | AlreadyTimedOut
      | UploadFailed

  /** A request, and what its surroundings answer: the photo's size, the employee row, the upload. */
  datatype Request =
      Request(employee: Id, kind: Kind, photo: Id, now: int, tooLarge: bool, known: bool, active: bool, uploads: bool)

  function DayStart(c: Clock, day: int): int { day * DAY_MS - c.offset * MINUTE_MS + c.startHour * HOUR_MS }

  /** Whether the employee punched `kind` within the business day of `now`. */
  predicate PunchedToday(c: Clock, rows: seq<Punch>, employee: Id, kind: Kind, now: int) {
    var today := BusinessDayNumber(c, now);
    exists i :: 0 <= i < |rows| && rows[i].employee == employee && rows[i].kind == kind
      && DayStart(c, today) <= rows[i].at <= DayStart(c, today + 1) - 1
  }

  function Record(c: Clock, rows: seq<Punch>, q: Request): Result<seq<Punch>, Error> {
    if q.tooLarge then Err(PayloadTooLarge)
    else if !q.known then Err(UnknownEmployee)
    else if !q.active then Err(InactiveEmployee)
    else if q.kind == TimeIn && PunchedToday(c, rows, q.employee, TimeIn, q.now) then Err(AlreadyTimedIn)
    else if q.kind == TimeOut && !PunchedToday(c, rows, q.employee, TimeIn, q.now) then Err(NotTimedIn)
    else if q.kind == TimeOut && PunchedToday(c, rows, q.employee, TimeOut, q.now) then Err(AlreadyTimedOut)
    else if !q.uploads then Err(UploadFailed)
    else Ok(rows + [Punch(q.employee, q.kind, q.now, q.photo)])
  }

  /** The attendance table after a series of requests, each handled under the employee's row lock. */
  function Log(c: Clock, requests: seq<Request>): seq<Punch> {
    if requests == [] then [] else
      var n := |requests| - 1;
      var before := Log(c, requests[..n]);
      var r := Record(c, before, requests[n]);
      if r.Ok? then r.value else before
  }

  predicate ClockForward(requests: seq<Request>) {
    forall i, j :: 0 <= i < j < |requests| ==> requests[i].now <= requests[j].now
  }

  /** Each employee's day: at most one TIME_IN, at most one TIME_OUT, and that after the TIME_IN. */
  ghost predicate DayDisciplined(c: Clock, rows: seq<Punch>, employee: Id, day: int) {
    && (forall i, j :: 0 <= i < j < |rows| && Of(c, rows[i], employee, day, rows[i].kind) ==>
         !Of(c, rows[j], employee, day, rows[i].kind))
    && (forall j :: 0 <= j < |rows| && Of(c, rows[j], employee, day, TimeOut) ==>
          exists i :: 0 <= i < j && Of(c, rows[i], employee, day, TimeIn))
  }

  lemma TodayIsDay(c: Clock, rows: seq<Punch>, employee: Id, kind: Kind, now: int)
    ensures PunchedToday(c, rows, employee, kind, now) <==> Has(c, rows, employee, BusinessDayNumber(c, now), kind)
  {
    var today := BusinessDayNumber(c, now);
    forall i | 0 <= i < |rows|
      ensures Of(c, rows[i], employee, today, kind) <==>
        rows[i].employee == employee && rows[i].kind == kind &&
          DayStart(c, today) <= rows[i].at <= DayStart(c, today + 1) - 1
    {
      DayOfInstant(c, rows[i].at, today);
    }
  }

  /**
   * The gate lets a punch in exactly when the photo, the employee and the upload are in order and the
   * business day asks for it: a TIME_IN when it has none, a TIME_OUT when it has a TIME_IN and no TIME_OUT.
   */
  lemma GateAnswers(c: Clock, rows: seq<Punch>, q: Request)
    ensures var r, today := Record(c, rows, q), BusinessDayNumber(c, q.now);
      var hasIn, hasOut := Has(c, rows, q.employee, today, TimeIn), Has(c, rows, q.employee, today, TimeOut);
      var admitted := !q.tooLarge && q.known && q.active;
      && (r == Err(PayloadTooLarge) <==> q.tooLarge)
      && (r == Err(UnknownEmployee) <==> !q.tooLarge && !q.known)
      && (r == Err(InactiveEmployee) <==> !q.tooLarge && q.known && !q.active)
      && (r == Err(AlreadyTimedIn) <==> admitted && q.kind == TimeIn && hasIn)
      && (r == Err(NotTimedIn) <==> admitted && q.kind == TimeOut && !hasIn)
      && (r == Err(AlreadyTimedOut) <==> admitted && q.kind == TimeOut && hasIn && hasOut)
      && (r.Ok? <==> admitted && q.uploads && (if q.kind == TimeIn then !hasIn else hasIn && !hasOut))
      && (r.Ok? ==> r.value == rows + [Punch(q.employee, q.kind, q.now, q.photo)])
  {
    TodayIsDay(c, rows, q.employee, TimeIn, q.now);
    TodayIsDay(c, rows, q.employee, TimeOut, q.now);
  }

  lemma RecordKeepsDay(c: Clock, rows: seq<Punch>, q: Request, employee: Id, day: int)
    requires DayDisciplined(c, rows, employee, day) && Record(c, rows, q).Ok?
    ensures DayDisciplined(c, Record(c, rows, q).value, employee, day)
  {
    TodayIsDay(c, rows, q.employee, TimeIn, q.now);
    TodayIsDay(c, rows, q.employee, TimeOut, q.now);
    var after := Record(c, rows, q).value;
    var n := |rows|;
    assert forall i :: 0 <= i < n ==> after[i] == rows[i];
    if Of(c, after[n], employee, day, TimeOut) {
      var i :| 0 <= i < |rows| && Of(c, rows[i], employee, day, TimeIn);
      assert Of(c, after[i], employee, day, TimeIn);
    }
    forall j | 0 <= j < |after| && Of(c, after[j], employee, day, TimeOut)
      ensures exists i :: 0 <= i < j && Of(c, after[i], employee, day, TimeIn)
    {
      if j < n {
        var i :| 0 <= i < j && Of(c, rows[i], employee, day, TimeIn);
        assert Of(c, after[i], employee, day, TimeIn);
      }
    }
  }

  /** The gate's log, whatever was requested. */
  lemma {:induction false} GateDisciplines(c: Clock, requests: seq<Request>, employee: Id, day: int)
    ensures DayDisciplined(c, Log(c, requests), employee, day)
  {
    if requests != [] {
      var n := |requests| - 1;
      GateDisciplines(c, requests[..n], employee, day);
      var before := Log(c, requests[..n]);
      if Record(c, before, requests[n]).Ok? { RecordKeepsDay(c, before, requests[n], employee, day); }
    }
  }

  lemma {:induction false} LogOrdered(c: Clock, requests: seq<Request>)
    requires ClockForward(requests)
    ensures Ordered(Log(c, requests))
    ensures requests == [] ==> Log(c, requests) == []
    ensures requests != [] ==>
      forall i :: 0 <= i < |Log(c, requests)| ==> Log(c, requests)[i].at <= requests[|requests| - 1].now
  {
    if requests != [] {
      var n := |requests| - 1;
      LogOrdered(c, requests[..n]);
      var before := Log(c, requests[..n]);
      if n > 0 { assert requests[..n][n - 1] == requests[n - 1]; }
    }
  }

  /**
   * Pairing the gate's own log, with a clock that does not go back: no day is a TIME_OUT without a
   * TIME_IN, and worked minutes are between zero and a whole day.
   */
  lemma GatedPairing(c: Clock, requests: seq<Request>, now: int, k: nat)
    requires ClockForward(requests) && k < |Paired(c, Log(c, requests), now)|
    ensures var e := Paired(c, Log(c, requests), now)[k];
      && e.timeIn.Some?
      && (e.status == Complete <==> e.minutes.Some?)
      && (e.minutes.Some? ==> 0 <= e.minutes.value <= 1440)
  {
    var rows := Log(c, requests);
    LogOrdered(c, requests);
    PairingMeans(c, rows, now);
    var e := Paired(c, rows, now)[k];
    assert EntryFaithful(c, rows, now, e);
    GateDisciplines(c, requests, e.employee, e.day);
    if e.timeOut.Some? {
      var j :| 0 <= j < |rows| && Of(c, rows[j], e.employee, e.day, TimeOut) &&
        e.timeOut.value == Stamp(rows[j].at, rows[j].photo);
      var i :| 0 <= i < j && Of(c, rows[i], e.employee, e.day, TimeIn);
      assert e.timeIn.Some? && e.timeIn.value.at <= rows[i].at <= rows[j].at;
      WithinDay(c, rows, e);
    }
  }

  lemma WithinDay(c: Clock, rows: seq<Punch>, e: Entry)
    requires e.timeIn.Some? && e.timeOut.Some?
    requires IsEarliest(c, rows, e.employee, e.day, TimeIn, e.timeIn.value)
    requires IsLatest(c, rows, e.employee, e.day, TimeOut, e.timeOut.value)
    ensures e.timeOut.value.at - e.timeIn.value.at < 86_400_000
  {
    var i :| 0 <= i < |rows| && Of(c, rows[i], e.employee, e.day, TimeIn) &&
      e.timeIn.value == Stamp(rows[i].at, rows[i].photo);
    var j :| 0 <= j < |rows| && Of(c, rows[j], e.employee, e.day, TimeOut) &&
      e.timeOut.value == Stamp(rows[j].at, rows[j].photo);
    DayOfInstant(c, rows[i].at, e.day);
    DayOfInstant(c, rows[j].at, e.day);
  }

  // ---------------------------------------------------------------------------
  // The code's loops

  /** The first pass: the stamps of each employee and day. */
  method Collect(c: Clock, rows: seq<Punch>) returns (entries: seq<Entry>)
    ensures entries == Collected(c, rows)
  {
    entries := [];
    for r := 0 to |rows|
      invariant entries == Collected(c, rows[..r])
    {
      assert rows[..r + 1][..r] == rows[..r];
      var p := rows[r];
      var i := IndexOf(entries, p.employee, DayOf(c, p));
      if i == |entries| {
        entries := entries + [Entry(p.employee, DayOf(c, p), None, None, None, Open)];
      }
      var e := entries[i];
      if p.kind == TimeIn {
        if e.timeIn.None? { entries := entries[i := e.(timeIn := Some(Stamp(p.at, p.photo)))]; }
      } else {
        entries := entries[i := e.(timeOut := Some(Stamp(p.at, p.photo)))];
      }
    }
    assert rows[..|rows|] == rows;
  }

  /** Two passes: collect the stamps, then close every entry. */
  method PairDtrEntries(c: Clock, rows: seq<Punch>, now: int) returns (entries: seq<Entry>)
    ensures entries == Paired(c, rows, now)
  {
    entries := Collect(c, rows);
    ghost var open := entries;
    var k := 0;
    while k < |entries|
      invariant 0 <= k <= |entries| == |open|
      invariant entries[..k] == Paired(c, rows, now)[..k]
      invariant entries[k..] == open[k..]
    {
      assert entries[k] == open[k];
      var e := entries[k];
      if e.timeIn.Some? && e.timeOut.Some? {
        entries := entries[k := e.(minutes := Some(RoundedMinutes(e.timeOut.value.at - e.timeIn.value.at)),
          status := Complete)];
      } else if e.timeIn.Some? {
        entries := entries[k := e.(status := if now - e.timeIn.value.at > FORFEIT_MS then Forfeited else Open)];
      } else {
        entries := entries[k := e.(status := Complete)];
      }
      k := k + 1;
    }
  }

  /** The attendance table, and the gate in front of it. */
  class AttendanceTable {
    var records: seq<Punch>
    const clock: Clock

    constructor (clock: Clock)
      ensures this.clock == clock && records == []
    {
      this.clock := clock;
      records := [];
    }

    /** The two flags of the day, read in one query. */
    method Todays(employee: Id, now: int) returns (hasIn: bool, hasOut: bool)
      ensures hasIn == PunchedToday(clock, records, employee, TimeIn, now)
      ensures hasOut == PunchedToday(clock, records, employee, TimeOut, now)
    {
      var today := BusinessDayNumber(clock, now);
      var start, end := DayStart(clock, today), DayStart(clock, today + 1) - 1;
      hasIn, hasOut := false, false;
      for i := 0 to |records|
        invariant hasIn == exists j ::
          0 <= j < i && records[j].employee == employee && records[j].kind == TimeIn && start <= records[j].at <= end
        invariant hasOut == exists j ::
          0 <= j < i && records[j].employee == employee && records[j].kind == TimeOut && start <= records[j].at <= end
      {
        if records[i].employee == employee && start <= records[i].at <= end {
          if records[i].kind == TimeIn { hasIn := true; } else { hasOut := true; }
        }
      }
    }

    method RecordPunch(q: Request) returns (e: Option<Error>)
      modifies this
      ensures var r := Record(clock, old(records), q);
        && e == (if r.Ok? then None else Some(r.error))
        && records == if r.Ok? then r.value else old(records)
    {
      if q.tooLarge { return Some(PayloadTooLarge); }
      if !q.known { return Some(UnknownEmployee); }
      if !q.active { return Some(InactiveEmployee); }
      var hasIn, hasOut := Todays(q.employee, q.now);
      if q.kind == TimeIn && hasIn { return Some(AlreadyTimedIn); }
      if q.kind == TimeOut && !hasIn { return Some(NotTimedIn); }
      if q.kind == TimeOut && hasOut { return Some(AlreadyTimedOut); }
      if !q.uploads { return Some(UploadFailed); }
      records := records + [Punch(q.employee, q.kind, q.now, q.photo)];
      return None;
    }
  }
}
