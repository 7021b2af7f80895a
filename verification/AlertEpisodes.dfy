/**
 * Alert episodes and digests (src/modules/alerts/scan.ts, src/modules/alerts/compose.ts): scans keep
 * the open alerts of a kind in step with the problems found, and digests email each alert once,
 * oldest first.
 */
module AlertEpisodes {
  import opened Common

  const MAX_ALERTS_PER_EMAIL := 100

  datatype Kind = LowStock | OrderUnattended | OrderStuck

  datatype Alert = Alert(kind: Kind, subject: Id, openedAt: int, resolvedAt: Option<int>, email: Option<nat>)

  /**
   * The alert table, the number of digests queued so far, and the rows that the one composer holding
   * the lock has selected and not yet linked.
   */
  datatype State = State(alerts: seq<Alert>, digests: nat, selected: set<nat>)

  /**
   * `picked` is the answer of the digest query: rows by position. The rows are not locked, so scans
   * may commit between a `Select` and the `Commit` or `Rollback` that ends its transaction.
   */
  datatype Step =
    | Scan(kind: Kind, findings: seq<Id>, now: int)
    | Select(picked: set<nat>)
    | Commit
    | Rollback

  predicate IsOpen(a: Alert, kind: Kind, subject: Id) { a.kind == kind && a.subject == subject && a.resolvedAt.None? }

  predicate HasOpen(alerts: seq<Alert>, kind: Kind, subject: Id) {
    exists i :: 0 <= i < |alerts| && IsOpen(alerts[i], kind, subject)
  }

  /** The resolving update: open alerts of the kind whose subject was not found. */
  function ResolveGone(alerts: seq<Alert>, kind: Kind, findings: seq<Id>, now: int): (r: seq<Alert>)
    ensures |r| == |alerts|
  {
    seq(|alerts|, i requires 0 <= i < |alerts| =>
      if alerts[i].kind == kind && alerts[i].resolvedAt.None? && alerts[i].subject !in findings
      then alerts[i].(resolvedAt := Some(now)) else alerts[i])
  }

  /** How many open alerts of the kind are no longer found. */
  function Gone(alerts: seq<Alert>, kind: Kind, findings: seq<Id>): nat {
    if alerts == [] then 0 else
      var n := |alerts| - 1;
      Gone(alerts[..n], kind, findings)
      + (if alerts[n].kind == kind && alerts[n].resolvedAt.None? && alerts[n].subject !in findings then 1 else 0)
  }

  /** The rows that the update resolves. */
  function GoneRows(alerts: seq<Alert>, kind: Kind, findings: seq<Id>): set<nat> {
    set i: nat | i < |alerts| && alerts[i].kind == kind && alerts[i].resolvedAt == None
      && alerts[i].subject !in findings
  }

  lemma GoneOneMore(alerts: seq<Alert>, kind: Kind, findings: seq<Id>)
    requires alerts != []
    ensures var n := |alerts| - 1;
      var last := alerts[n].kind == kind && alerts[n].resolvedAt == None && alerts[n].subject !in findings;
      GoneRows(alerts, kind, findings) == GoneRows(alerts[..n], kind, findings) + if last then {n} else {}
  {
  }

  /** The count returned is how many there are. */
  lemma {:induction false} GoneCounts(alerts: seq<Alert>, kind: Kind, findings: seq<Id>)
    ensures Gone(alerts, kind, findings) == |GoneRows(alerts, kind, findings)|
  {
    if alerts != [] {
      GoneCounts(alerts[..|alerts| - 1], kind, findings);
      GoneOneMore(alerts, kind, findings);
    }
  }

  /** The insert, skipping subjects whose alert is already open. */
  function OpenNew(alerts: seq<Alert>, kind: Kind, findings: seq<Id>, now: int): seq<Alert> {
    if findings == [] then alerts else
      var n := |findings| - 1;
      var before := OpenNew(alerts, kind, findings[..n], now);
      if HasOpen(before, kind, findings[n]) then before else before + [Alert(kind, findings[n], now, None, None)]
  }

  function Sync(alerts: seq<Alert>, kind: Kind, findings: seq<Id>, now: int): seq<Alert> {
    OpenNew(ResolveGone(alerts, kind, findings, now), kind, findings, now)
  }

  /** Open alerts not yet in a digest. */
  predicate Unsent(a: Alert) { a.email.None? && a.resolvedAt.None? }

  function UnsentRows(alerts: seq<Alert>): set<nat> {
    set i: nat | i < |alerts| && Unsent(alerts[i])
  }

  /** What the query may answer: the hundred oldest unsent open alerts, or all when there are fewer. */
  ghost predicate Oldest(alerts: seq<Alert>, picked: set<nat>) {
    && picked <= UnsentRows(alerts)
    && |picked| == (if |UnsentRows(alerts)| < 100 then |UnsentRows(alerts)| else 100)
    && forall p, q :: p in picked && q in UnsentRows(alerts) - picked ==> alerts[p].openedAt <= alerts[q].openedAt
  }

  function Link(alerts: seq<Alert>, picked: set<nat>, email: nat): (r: seq<Alert>)
    ensures |r| == |alerts|
  {
    seq(|alerts|, i requires 0 <= i < |alerts| => if i in picked then alerts[i].(email := Some(email)) else alerts[i])
  }

  function Next(s: State, step: Step): State {
    match step
    case Scan(kind, findings, now) => s.(alerts := Sync(s.alerts, kind, findings, now))
    case Select(picked) => if s.selected != {} then s else s.(selected := picked)
    case Commit =>
      if s.selected == {} then s else State(Link(s.alerts, s.selected, s.digests), s.digests + 1, {})
    case Rollback => s.(selected := {})
  }

  function Run(s: State, steps: seq<Step>): State {
    if steps == [] then s else Next(Run(s, steps[..|steps| - 1]), steps[|steps| - 1])
  }

  const EMPTY := State([], 0, {})

  /** Every digest query of a run that is made answers with the oldest unsent alerts. */
  ghost predicate Faithful(s: State, steps: seq<Step>) {
    steps == [] ||
      var n := |steps| - 1;
      var before := Run(s, steps[..n]);
      && Faithful(s, steps[..n])
      && (steps[n].Select? && before.selected == {} ==> Oldest(before.alerts, steps[n].picked))
  }

  // ---------------------------------------------------------------------------
  // Scans

  function Count(alerts: seq<Alert>, kind: Kind, subject: Id): nat {
    if alerts == [] then 0 else
      var n := |alerts| - 1;
      Count(alerts[..n], kind, subject) + (if alerts[n].kind == kind && alerts[n].subject == subject then 1 else 0)
  }

  /** At most one open alert per kind and subject. */
  predicate OpenOnce(alerts: seq<Alert>) {
    forall i, j :: 0 <= i < j < |alerts| && IsOpen(alerts[j], alerts[j].kind, alerts[j].subject) ==>
      !IsOpen(alerts[i], alerts[j].kind, alerts[j].subject)
  }

  lemma {:induction false} CountSame(a: seq<Alert>, b: seq<Alert>, kind: Kind, subject: Id)
    requires |a| == |b| && forall i :: 0 <= i < |a| ==> a[i].kind == b[i].kind && a[i].subject == b[i].subject
    ensures Count(a, kind, subject) == Count(b, kind, subject)
  {
    if a != [] {
      var n := |a| - 1;
      CountSame(a[..n], b[..n], kind, subject);
    }
  }

  lemma ResolveGoneOpen(alerts: seq<Alert>, kind: Kind, findings: seq<Id>, now: int, k: Kind, subject: Id)
    ensures var after := ResolveGone(alerts, kind, findings, now);
      && (HasOpen(after, k, subject) <==> HasOpen(alerts, k, subject) && (k == kind ==> subject in findings))
      && Count(after, k, subject) == Count(alerts, k, subject)
      && (OpenOnce(alerts) ==> OpenOnce(after))
  {
    var after := ResolveGone(alerts, kind, findings, now);
    CountSame(after, alerts, k, subject);
    if HasOpen(alerts, k, subject) && (k == kind ==> subject in findings) {
      var i :| 0 <= i < |alerts| && IsOpen(alerts[i], k, subject);
      assert IsOpen(after[i], k, subject);
    }
    if HasOpen(after, k, subject) {
      var i :| 0 <= i < |after| && IsOpen(after[i], k, subject);
      assert IsOpen(alerts[i], k, subject);
    }
    if OpenOnce(alerts) {
      forall i, j | 0 <= i < j < |after| && IsOpen(after[j], after[j].kind, after[j].subject)
        ensures !IsOpen(after[i], after[j].kind, after[j].subject)
      {
        assert IsOpen(alerts[j], alerts[j].kind, alerts[j].subject);
      }
    }
  }

  lemma AppendOpen(alerts: seq<Alert>, a: Alert, k: Kind, subject: Id)
    ensures HasOpen(alerts + [a], k, subject) <==> HasOpen(alerts, k, subject) || IsOpen(a, k, subject)
    ensures Count(alerts + [a], k, subject) ==
      Count(alerts, k, subject) + (if a.kind == k && a.subject == subject then 1 else 0)
  {
    assert (alerts + [a])[..|alerts|] == alerts;
    if HasOpen(alerts, k, subject) {
      var i :| 0 <= i < |alerts| && IsOpen(alerts[i], k, subject);
      assert IsOpen((alerts + [a])[i], k, subject);
    }
    if IsOpen(a, k, subject) {
      assert IsOpen((alerts + [a])[|alerts|], k, subject);
    }
    if HasOpen(alerts + [a], k, subject) {
      var i :| 0 <= i < |alerts + [a]| && IsOpen((alerts + [a])[i], k, subject);
      if i < |alerts| { assert IsOpen(alerts[i], k, subject); }
    }
  }

  lemma AppendOnce(alerts: seq<Alert>, a: Alert)
    requires OpenOnce(alerts) && !HasOpen(alerts, a.kind, a.subject)
    ensures OpenOnce(alerts + [a])
  {
  }

  lemma {:induction false} OpenNewOpens(alerts: seq<Alert>, kind: Kind, findings: seq<Id>, now: int, k: Kind,
      subject: Id)
    ensures var after := OpenNew(alerts, kind, findings, now);
      && (HasOpen(after, k, subject) <==> HasOpen(alerts, k, subject) || (k == kind && subject in findings))
      && Count(after, k, subject) ==
           Count(alerts, k, subject) +
             (if k == kind && subject in findings && !HasOpen(alerts, k, subject) then 1 else 0)
  {
    if findings != [] {
      var n := |findings| - 1;
      var before := OpenNew(alerts, kind, findings[..n], now);
      OpenNewOpens(alerts, kind, findings[..n], now, k, subject);
      OpenNewOpens(alerts, kind, findings[..n], now, kind, findings[n]);
      assert subject in findings <==> subject in findings[..n] || subject == findings[n];
      AppendOpen(before, Alert(kind, findings[n], now, None, None), k, subject);
    }
  }

  lemma {:induction false} OpenNewOnce(alerts: seq<Alert>, kind: Kind, findings: seq<Id>, now: int)
    requires OpenOnce(alerts)
    ensures OpenOnce(OpenNew(alerts, kind, findings, now))
  {
    if findings != [] {
      var n := |findings| - 1;
      OpenNewOnce(alerts, kind, findings[..n], now);
      var before := OpenNew(alerts, kind, findings[..n], now);
      if !HasOpen(before, kind, findings[n]) {
        AppendOnce(before, Alert(kind, findings[n], now, None, None));
      }
    }
  }

  /**
   * One scan: afterwards exactly the subjects found have an open alert of the kind, other kinds are
   * untouched, and a new alert is opened exactly for the subjects that had none open.
   */
  lemma SyncExact(alerts: seq<Alert>, kind: Kind, findings: seq<Id>, now: int, k: Kind, subject: Id)
    ensures var after := Sync(alerts, kind, findings, now);
      && (HasOpen(after, k, subject) <==> if k == kind then subject in findings else HasOpen(alerts, k, subject))
      && Count(after, k, subject) ==
           Count(alerts, k, subject) +
             (if k == kind && subject in findings && !HasOpen(alerts, k, subject) then 1 else 0)
      && (OpenOnce(alerts) ==> OpenOnce(after))
  {
    ResolveGoneOpen(alerts, kind, findings, now, k, subject);
    var kept := ResolveGone(alerts, kind, findings, now);
    OpenNewOpens(kept, kind, findings, now, k, subject);
    if OpenOnce(alerts) { OpenNewOnce(kept, kind, findings, now); }
  }

  /**
   * The rows of a scan: open alerts of the kind whose subject is gone are resolved as of now, all other rows
   * stay as they are, and the new ones are open, unsent and of now.
   */
  lemma SyncRows(alerts: seq<Alert>, kind: Kind, findings: seq<Id>, now: int, i: nat)
    requires i < |Sync(alerts, kind, findings, now)|
    ensures |alerts| <= |Sync(alerts, kind, findings, now)|
    ensures var row := Sync(alerts, kind, findings, now)[i];
      if i < |alerts| then
        var gone := alerts[i].kind == kind && alerts[i].resolvedAt == None && alerts[i].subject !in findings;
        row == Alert(alerts[i].kind, alerts[i].subject, alerts[i].openedAt,
                     if gone then Some(now) else alerts[i].resolvedAt, alerts[i].email)
      else row.subject in findings && row == Alert(kind, row.subject, now, None, None)
  {
    var kept := ResolveGone(alerts, kind, findings, now);
    OpenedRows(kept, kind, findings, now);
    if i < |alerts| { assert Sync(alerts, kind, findings, now)[i] == kept[i]; }
  }

  lemma {:induction false} OpenedRows(alerts: seq<Alert>, kind: Kind, findings: seq<Id>, now: int)
    ensures var after := OpenNew(alerts, kind, findings, now);
      && alerts <= after
      && forall i :: |alerts| <= i < |after| ==>
           after[i].subject in findings && after[i] == Alert(kind, after[i].subject, now, None, None)
  {
    if findings != [] { OpenedRows(alerts, kind, findings[..|findings| - 1], now); }
  }

  lemma LinkKeeps(alerts: seq<Alert>, picked: set<nat>, email: nat, k: Kind, subject: Id)
    ensures var after := Link(alerts, picked, email);
      && (HasOpen(after, k, subject) <==> HasOpen(alerts, k, subject))
      && Count(after, k, subject) == Count(alerts, k, subject)
      && (OpenOnce(alerts) ==> OpenOnce(after))
  {
    var after := Link(alerts, picked, email);
    CountSame(after, alerts, k, subject);
    if HasOpen(alerts, k, subject) {
      var i :| 0 <= i < |alerts| && IsOpen(alerts[i], k, subject);
      assert IsOpen(after[i], k, subject);
    }
    if HasOpen(after, k, subject) {
      var i :| 0 <= i < |after| && IsOpen(after[i], k, subject);
      assert IsOpen(alerts[i], k, subject);
    }
    if OpenOnce(alerts) {
      forall i, j | 0 <= i < j < |after| && IsOpen(after[j], after[j].kind, after[j].subject)
        ensures !IsOpen(after[i], after[j].kind, after[j].subject)
      {
        assert IsOpen(alerts[j], alerts[j].kind, alerts[j].subject);
      }
    }
  }

  // ---------------------------------------------------------------------------
  // Episodes over whole runs

  /** Whether the latest scan of the kind found the subject. */
  predicate LastFound(steps: seq<Step>, kind: Kind, subject: Id) {
    steps != [] &&
      var n := |steps| - 1;
      if steps[n].Scan? && steps[n].kind == kind then subject in steps[n].findings
      else LastFound(steps[..n], kind, subject)
  }

  /** The number of maximal runs of consecutive scans of the kind that found the subject. */
  function Episodes(steps: seq<Step>, kind: Kind, subject: Id): nat {
    if steps == [] then 0 else
      var n := |steps| - 1;
      var starts := steps[n].Scan? && steps[n].kind == kind && subject in steps[n].findings &&
        !LastFound(steps[..n], kind, subject);
      Episodes(steps[..n], kind, subject) + (if starts then 1 else 0)
  }

  /**
   * Over any run of scans and digests: a subject has an open alert exactly when the latest scan
   * found it, never two, and every episode of the problem has had exactly one alert.
   */
  lemma {:induction false} OneAlertPerEpisode(steps: seq<Step>, kind: Kind, subject: Id)
    ensures var alerts := Run(EMPTY, steps).alerts;
      && (HasOpen(alerts, kind, subject) <==> LastFound(steps, kind, subject))
      && Count(alerts, kind, subject) == Episodes(steps, kind, subject)
      && OpenOnce(alerts)
  {
    if steps != [] {
      var n := |steps| - 1;
      OneAlertPerEpisode(steps[..n], kind, subject);
      var before := Run(EMPTY, steps[..n]);
      match steps[n]
      case Scan(k, findings, now) => SyncExact(before.alerts, k, findings, now, kind, subject);
      case Commit => LinkKeeps(before.alerts, before.selected, before.digests, kind, subject);
      case _ =>
    }
  }

  // ---------------------------------------------------------------------------
  // Digests

  function InDigest(alerts: seq<Alert>, d: nat): set<nat> {
    set i: nat | i < |alerts| && alerts[i].email == Some(d)
  }

  /** What is selected is in no digest, and a selection has the size of a digest. */
  predicate SelectionOk(s: State) {
    && |s.selected| <= 100
    && forall i :: i in s.selected ==> i < |s.alerts| && s.alerts[i].email.None?
  }

  /** Digests are numbered in order, and none holds more than a hundred alerts. */
  ghost predicate DigestsOk(s: State) {
    && (forall i :: 0 <= i < |s.alerts| && s.alerts[i].email.Some? ==> s.alerts[i].email.value < s.digests)
    && (forall d: nat :: d < s.digests ==> 1 <= |InDigest(s.alerts, d)| <= 100)
    && OpenOnce(s.alerts)
  }

  /**
   * An alert row is never lost, and what it says of its digest is never rewritten; one already
   * resolved enters no digest unless it is among the `selected`.
   */
  predicate LinksKept(a: seq<Alert>, selected: set<nat>, b: seq<Alert>) {
    && |a| <= |b|
    && (forall i :: 0 <= i < |a| ==>
          && b[i].kind == a[i].kind && b[i].subject == a[i].subject && b[i].openedAt == a[i].openedAt
          && (a[i].email.Some? ==> b[i].email == a[i].email)
          && (a[i].resolvedAt.Some? ==> b[i].resolvedAt == a[i].resolvedAt)
          && (a[i].resolvedAt.Some? && i !in selected ==> b[i].email == a[i].email))
  }

  lemma {:induction false} OpenNewKeeps(alerts: seq<Alert>, kind: Kind, findings: seq<Id>, now: int)
    ensures alerts <= OpenNew(alerts, kind, findings, now)
    ensures forall i :: |alerts| <= i < |OpenNew(alerts, kind, findings, now)| ==>
      OpenNew(alerts, kind, findings, now)[i].email.None?
  {
    if findings != [] { OpenNewKeeps(alerts, kind, findings[..|findings| - 1], now); }
  }

  lemma SyncLinks(alerts: seq<Alert>, kind: Kind, findings: seq<Id>, now: int)
    ensures LinksKept(alerts, {}, Sync(alerts, kind, findings, now))
    ensures forall d: nat :: InDigest(Sync(alerts, kind, findings, now), d) == InDigest(alerts, d)
  {
    var kept, after := ResolveGone(alerts, kind, findings, now), Sync(alerts, kind, findings, now);
    OpenNewKeeps(kept, kind, findings, now);
    forall i | 0 <= i < |alerts| ensures after[i] == kept[i] { assert kept <= after; }
  }

  /**
   * Each alert is put in one digest at most, ever, and once resolved in none, but for those that a
   * composer had selected before.
   */
  lemma {:induction false} LinkedOnce(s: State, steps: seq<Step>)
    requires SelectionOk(s) && Faithful(s, steps)
    ensures LinksKept(s.alerts, s.selected, Run(s, steps).alerts) && SelectionOk(Run(s, steps))
    ensures forall i :: i in Run(s, steps).selected && i < |s.alerts| && s.alerts[i].resolvedAt.Some? ==>
      i in s.selected
  {
    if steps != [] {
      var n := |steps| - 1;
      LinkedOnce(s, steps[..n]);
      StepLinks(Run(s, steps[..n]), steps[n]);
    }
  }

  /** What one step does to the links and to the selection. */
  lemma StepLinks(s: State, step: Step)
    requires SelectionOk(s) && (step.Select? && s.selected == {} ==> Oldest(s.alerts, step.picked))
    ensures LinksKept(s.alerts, s.selected, Next(s, step).alerts) && SelectionOk(Next(s, step))
    ensures forall i :: i in Next(s, step).selected - s.selected ==> i < |s.alerts| && s.alerts[i].resolvedAt.None?
  {
    match step
    case Scan(kind, findings, now) =>
      SyncLinks(s.alerts, kind, findings, now);
      forall i | i in s.selected ensures Next(s, step).alerts[i].email.None? {
        SyncLinksRow(s.alerts, kind, findings, now, i);
      }
    case Select(picked) =>
      forall i | i in picked && s.selected == {} ensures i < |s.alerts| && Unsent(s.alerts[i]) {
        assert i in UnsentRows(s.alerts);
      }
    case _ =>
  }

  lemma SyncLinksRow(alerts: seq<Alert>, kind: Kind, findings: seq<Id>, now: int, i: nat)
    requires i < |alerts| && alerts[i].email.None?
    ensures i < |Sync(alerts, kind, findings, now)| && Sync(alerts, kind, findings, now)[i].email.None?
  {
    var kept := ResolveGone(alerts, kind, findings, now);
    OpenNewKeeps(kept, kind, findings, now);
    assert kept <= Sync(alerts, kind, findings, now);
  }

  /**
   * A scan that commits between a selection and its link resolves an alert which is emailed all the
   * same: being emailed says that an alert was open when the digest was selected, not when it was linked.
   */
  lemma ResolvedYetEmailed()
    ensures var steps := [Scan(LowStock, [7], 10), Select({0}), Scan(LowStock, [], 20), Commit];
      && Selecting(EMPTY, steps)
      && Run(EMPTY, steps).alerts == [Alert(LowStock, 7, 10, Some(20), Some(0))]
  {
    var open, gone := Alert(LowStock, 7, 10, None, None), Alert(LowStock, 7, 10, Some(20), None);
    assert ResolveGone([], LowStock, [7], 10) == [] && [7][..0] == [];
    PickedOne(open);
    assert ResolveGone([open], LowStock, [], 20) == [gone];
    FourSteps(EMPTY, Scan(LowStock, [7], 10), Select({0}), Scan(LowStock, [], 20), Commit);
  }

  lemma FourSteps(s: State, a: Step, b: Step, c: Step, d: Step)
    requires a.Scan? && b.Select? && c.Scan? && d.Commit? && b.picked == Picked(Next(s, a).alerts)
    ensures Run(s, [a, b, c, d]) == Next(Next(Next(Next(s, a), b), c), d) && Selecting(s, [a, b, c, d])
  {
    RunOneMore(s, [], a);
    RunOneMore(s, [a], b);
    RunOneMore(s, [a, b], c);
    RunOneMore(s, [a, b, c], d);
    assert [] + [a] == [a] && [a] + [b] == [a, b] && [a, b] + [c] == [a, b, c] && [a, b, c] + [d] == [a, b, c, d];
  }

  lemma RunOneMore(s: State, steps: seq<Step>, step: Step)
    ensures Run(s, steps + [step]) == Next(Run(s, steps), step)
    ensures Selecting(s, steps) && (step.Select? ==> step.picked == Picked(Run(s, steps).alerts)) ==>
      Selecting(s, steps + [step])
  {
    assert (steps + [step])[..|steps|] == steps;
  }

  lemma PickedOne(a: Alert)
    requires Unsent(a)
    ensures Picked([a]) == {0}
  {
    assert Ordered([a], 0) == [];
    assert Ordered([a], 1) == [0];
    ElementsAppend([], 0);
    assert [] + [0] == [0];
  }

  lemma LinkDigest(alerts: seq<Alert>, picked: set<nat>, email: nat, d: nat)
    requires forall i :: i in picked ==> i < |alerts|
    requires forall i :: 0 <= i < |alerts| && alerts[i].email.Some? ==> i !in picked && alerts[i].email.value < email
    ensures InDigest(Link(alerts, picked, email), d) == if d == email then picked else InDigest(alerts, d)
  {
    var after := Link(alerts, picked, email);
    assert forall i: nat :: i in InDigest(after, d) <==> i in (if d == email then picked else InDigest(alerts, d));
  }

  /** In every run each digest holds between one and a hundred alerts. */
  lemma {:induction false} DigestsBounded(steps: seq<Step>)
    requires Faithful(EMPTY, steps)
    ensures DigestsOk(Run(EMPTY, steps))
  {
    if steps != [] {
      var n := |steps| - 1;
      DigestsBounded(steps[..n]);
      OneAlertPerEpisode(steps, LowStock, 0);
      LinkedOnce(EMPTY, steps[..n]);
      DigestStep(Run(EMPTY, steps[..n]), steps[n]);
    }
  }

  lemma DigestStep(s: State, step: Step)
    requires DigestsOk(s) && SelectionOk(s) && OpenOnce(Next(s, step).alerts)
    ensures DigestsOk(Next(s, step))
  {
    match step
    case Scan(kind, findings, now) =>
      SyncLinks(s.alerts, kind, findings, now);
      forall i | 0 <= i < |Next(s, step).alerts| && Next(s, step).alerts[i].email.Some?
        ensures Next(s, step).alerts[i].email.value < s.digests
      {
        assert i in InDigest(Next(s, step).alerts, Next(s, step).alerts[i].email.value);
      }
    case Commit =>
      if s.selected != {} {
        assert |s.selected| >= 1;
        forall d: nat | d < s.digests + 1 ensures 1 <= |InDigest(Next(s, step).alerts, d)| <= 100 {
          LinkDigest(s.alerts, s.selected, s.digests, d);
        }
      }
    case _ =>
  }

  predicate ScansOnly(steps: seq<Step>) {
    forall i :: 0 <= i < |steps| ==> steps[i].Scan?
  }

  /** Scans leave a selection and the digests as they are, and send nothing back to the unsent. */
  lemma {:induction false} ScansBetween(s: State, steps: seq<Step>)
    requires ScansOnly(steps)
    ensures var t := Run(s, steps);
      && t.selected == s.selected && t.digests == s.digests && |t.alerts| >= |s.alerts|
      && (forall i :: 0 <= i < |s.alerts| ==>
            && t.alerts[i].email == s.alerts[i].email && t.alerts[i].openedAt == s.alerts[i].openedAt
            && (Unsent(t.alerts[i]) ==> Unsent(s.alerts[i])))
      && (forall i :: |s.alerts| <= i < |t.alerts| ==> t.alerts[i].email.None?)
  {
    if steps != [] {
      var n := |steps| - 1;
      ScansBetween(s, steps[..n]);
      assert steps[n].Scan?;
      var before := Run(s, steps[..n]);
      var kept := ResolveGone(before.alerts, steps[n].kind, steps[n].findings, steps[n].now);
      OpenNewKeeps(kept, steps[n].kind, steps[n].findings, steps[n].now);
      assert kept <= Run(s, steps).alerts;
    }
  }

  /**
   * A digest takes the oldest, whatever is scanned while it is made: no alert that the query left out
   * and that is still unsent was opened before one the digest holds.
   */
  lemma OldestFirst(s: State, picked: set<nat>, scans: seq<Step>, p: nat, q: nat)
    requires Oldest(s.alerts, picked) && picked != {} && s.selected == {} && DigestsOk(s) && ScansOnly(scans)
    requires var t := Next(Run(Next(s, Select(picked)), scans), Commit);
      p in InDigest(t.alerts, s.digests) && q in UnsentRows(t.alerts) && q < |s.alerts|
    ensures p < |s.alerts| && s.alerts[p].openedAt <= s.alerts[q].openedAt
  {
    var before := Run(Next(s, Select(picked)), scans);
    ScansBetween(Next(s, Select(picked)), scans);
    assert p in picked ==> p in UnsentRows(s.alerts);
    assert q in UnsentRows(s.alerts) - picked;
  }

  lemma LinkUnsent(alerts: seq<Alert>, picked: set<nat>, email: nat)
    requires picked <= UnsentRows(alerts)
    ensures UnsentRows(Link(alerts, picked, email)) == UnsentRows(alerts) - picked
    ensures |UnsentRows(Link(alerts, picked, email))| == |UnsentRows(alerts)| - |picked|
  {
    assert UnsentRows(Link(alerts, picked, email)) == UnsentRows(alerts) - picked;
    assert UnsentRows(alerts) == (UnsentRows(alerts) - picked) + picked;
  }

  // ---------------------------------------------------------------------------
  // The digest query

  function Elements(order: seq<nat>): set<nat> { set i | 0 <= i < |order| :: order[i] }

  /** The unsent rows, each once, by opening time: what the query sorts before it cuts. */
  ghost predicate ByAge(alerts: seq<Alert>, order: seq<nat>) {
    && (forall i :: 0 <= i < |order| ==> order[i] < |alerts|)
    && Elements(order) == UnsentRows(alerts)
    && (forall i, j :: 0 <= i < j < |order| ==> order[i] != order[j])
    && (forall i, j :: 0 <= i < j < |order| ==> alerts[order[i]].openedAt <= alerts[order[j]].openedAt)
  }

  function FirstOf(order: seq<nat>): seq<nat> {
    if |order| < MAX_ALERTS_PER_EMAIL then order else order[..MAX_ALERTS_PER_EMAIL]
  }

  lemma {:induction false} DistinctSize(order: seq<nat>)
    requires forall i, j :: 0 <= i < j < |order| ==> order[i] != order[j]
    ensures |Elements(order)| == |order|
  {
    if order != [] {
      var n := |order| - 1;
      DistinctSize(order[..n]);
      assert forall i :: 0 <= i < n ==> order[..n][i] == order[i];
      assert Elements(order) == Elements(order[..n]) + {order[n]};
      assert order[n] !in Elements(order[..n]);
    }
  }

  /** However ties are broken, sorting by opening time and taking the first hundred takes the oldest. */
  lemma FirstIsOldest(alerts: seq<Alert>, order: seq<nat>)
    requires ByAge(alerts, order)
    ensures Oldest(alerts, Elements(FirstOf(order)))
  {
    var first := FirstOf(order);
    var picked := Elements(first);
    DistinctSize(order);
    DistinctSize(first);
    forall p | p in picked ensures p in UnsentRows(alerts) {
      var i :| 0 <= i < |first| && first[i] == p;
      assert order[i] in Elements(order);
    }
    forall p, q | p in picked && q in UnsentRows(alerts) - picked ensures alerts[p].openedAt <= alerts[q].openedAt {
      var i :| 0 <= i < |first| && first[i] == p;
      assert q in Elements(order);
      var j :| 0 <= j < |order| && order[j] == q;
      assert forall k :: 0 <= k < |first| ==> first[k] in picked;
      assert order[i] == p && i < j;
    }
  }

  /** Row `i` put behind the rows opened no later. */
  function Insert(alerts: seq<Alert>, order: seq<nat>, i: nat): (r: seq<nat>)
    requires i < |alerts| && forall k :: 0 <= k < |order| ==> order[k] < |alerts|
    ensures |r| == |order| + 1 && forall k :: 0 <= k < |r| ==> r[k] < |alerts|
  {
    if order == [] then [i] else
      var n := |order| - 1;
      if alerts[order[n]].openedAt <= alerts[i].openedAt then order + [i]
      else Insert(alerts, order[..n], i) + [order[n]]
  }

  /** The first `n` rows of the table in the query's order, ties by position. */
  function Ordered(alerts: seq<Alert>, n: nat): (order: seq<nat>)
    requires n <= |alerts|
    ensures forall k :: 0 <= k < |order| ==> order[k] < n
  {
    if n == 0 then [] else
      var before := Ordered(alerts, n - 1);
      if Unsent(alerts[n - 1]) then InsertBelow(alerts, before, n - 1); Insert(alerts, before, n - 1) else before
  }

  lemma {:induction false} InsertBelow(alerts: seq<Alert>, order: seq<nat>, i: nat)
    requires i < |alerts| && forall k :: 0 <= k < |order| ==> order[k] < i
    ensures forall k :: 0 <= k < |Insert(alerts, order, i)| ==> Insert(alerts, order, i)[k] <= i
  {
    if order != [] { InsertBelow(alerts, order[..|order| - 1], i); }
  }

  lemma {:induction false} InsertElements(alerts: seq<Alert>, order: seq<nat>, i: nat)
    requires i < |alerts| && forall k :: 0 <= k < |order| ==> order[k] < |alerts|
    ensures Elements(Insert(alerts, order, i)) == Elements(order) + {i}
  {
    if order != [] {
      var n := |order| - 1;
      InsertElements(alerts, order[..n], i);
      ElementsAppend(order[..n], order[n]);
      assert order[..n] + [order[n]] == order;
      if alerts[order[n]].openedAt <= alerts[i].openedAt {
        ElementsAppend(order, i);
      } else {
        ElementsAppend(Insert(alerts, order[..n], i), order[n]);
      }
    } else {
      ElementsAppend([], i);
      assert [] + [i] == [i];
    }
  }

  lemma ElementsAppend(order: seq<nat>, i: nat)
    ensures Elements(order + [i]) == Elements(order) + {i}
  {
    var r := order + [i];
    forall x | x in Elements(order) + {i} ensures x in Elements(r) {
      if x == i {
        assert r[|order|] == i;
      } else {
        var k :| 0 <= k < |order| && order[k] == x;
        assert r[k] == x;
      }
    }
  }

  predicate Aged(alerts: seq<Alert>, order: seq<nat>)
    requires forall k :: 0 <= k < |order| ==> order[k] < |alerts|
  {
    forall i, j :: 0 <= i < j < |order| ==>
      alerts[order[i]].openedAt <= alerts[order[j]].openedAt && order[i] != order[j]
  }

  lemma {:induction false} InsertAged(alerts: seq<Alert>, order: seq<nat>, i: nat)
    requires i < |alerts| && (forall k :: 0 <= k < |order| ==> order[k] < |alerts|)
    requires Aged(alerts, order) && i !in Elements(order)
    ensures Aged(alerts, Insert(alerts, order, i))
  {
    if order != [] {
      var n := |order| - 1;
      assert order[n] in Elements(order);
      if alerts[order[n]].openedAt > alerts[i].openedAt {
        assert forall k :: 0 <= k < n ==> order[..n][k] == order[k];
        forall x | x in Elements(order[..n]) ensures x in Elements(order) {
          var k :| 0 <= k < n && order[..n][k] == x;
          assert order[k] == x;
        }
        InsertAged(alerts, order[..n], i);
        InsertElements(alerts, order[..n], i);
        LastAged(alerts, Insert(alerts, order[..n], i), order, i);
      } else {
        forall k | 0 <= k < |order| ensures order[k] != i { assert order[k] in Elements(order); }
      }
    }
  }

  /** The last row of the old order stays last. */
  lemma LastAged(alerts: seq<Alert>, before: seq<nat>, order: seq<nat>, i: nat)
    requires i < |alerts| && order != [] && (forall k :: 0 <= k < |order| ==> order[k] < |alerts|)
    requires (forall k :: 0 <= k < |before| ==> before[k] < |alerts|) && Aged(alerts, before) && Aged(alerts, order)
    requires Elements(before) == Elements(order[..|order| - 1]) + {i}
    requires alerts[order[|order| - 1]].openedAt > alerts[i].openedAt
    ensures Aged(alerts, before + [order[|order| - 1]])
  {
    var last := order[|order| - 1];
    forall k | 0 <= k < |before| ensures alerts[before[k]].openedAt <= alerts[last].openedAt && before[k] != last {
      assert before[k] in Elements(before);
      if before[k] != i {
        var j :| 0 <= j < |order| - 1 && order[..|order| - 1][j] == before[k];
        assert order[j] == before[k];
      }
    }
  }

  lemma UnsentOneMore(alerts: seq<Alert>, n: nat)
    requires n < |alerts|
    ensures UnsentRows(alerts[..n + 1]) == UnsentRows(alerts[..n]) + if Unsent(alerts[n]) then {n} else {}
  {
    assert alerts[..n + 1][n] == alerts[n];
    assert forall k :: 0 <= k < n ==> alerts[..n + 1][k] == alerts[..n][k];
  }

  lemma {:induction false} OrderedElements(alerts: seq<Alert>, n: nat)
    requires n <= |alerts|
    ensures Elements(Ordered(alerts, n)) == UnsentRows(alerts[..n])
  {
    if n > 0 {
      OrderedElements(alerts, n - 1);
      UnsentOneMore(alerts, n - 1);
      InsertElements(alerts, Ordered(alerts, n - 1), n - 1);
    }
  }

  lemma {:induction false} OrderedByAge(alerts: seq<Alert>, n: nat)
    requires n <= |alerts|
    ensures Aged(alerts, Ordered(alerts, n))
  {
    if n > 0 {
      OrderedByAge(alerts, n - 1);
      OrderedElements(alerts, n - 1);
      if Unsent(alerts[n - 1]) { InsertAged(alerts, Ordered(alerts, n - 1), n - 1); }
    }
  }

  /** The rows a digest takes. */
  function Selected(alerts: seq<Alert>): seq<nat> { FirstOf(Ordered(alerts, |alerts|)) }

  function Picked(alerts: seq<Alert>): set<nat> { Elements(Selected(alerts)) }

  /** The selection of the code: sorted by opening time and cut at a hundred, it is the hundred oldest. */
  lemma SelectsOldest(alerts: seq<Alert>)
    ensures ByAge(alerts, Ordered(alerts, |alerts|))
    ensures Oldest(alerts, Picked(alerts))
  {
    OrderedByAge(alerts, |alerts|);
    OrderedElements(alerts, |alerts|);
    assert alerts[..|alerts|] == alerts;
    FirstIsOldest(alerts, Ordered(alerts, |alerts|));
  }

  /** Digests needed for a backlog: the number of hundreds, rounded up. */
  function Hundreds(n: nat): nat { (n + 99) / 100 }

  predicate NoScans(steps: seq<Step>) {
    forall i :: 0 <= i < |steps| ==> !steps[i].Scan?
  }

  /**
   * While no scan commits, every digest takes a hundred off the backlog until none is left, whichever
   * composers find the lock taken or roll back, and no more digests are queued than the backlog has hundreds.
   */
  lemma {:induction false} BacklogDrains(s: State, steps: seq<Step>)
    requires s.selected == {} && Faithful(s, steps) && NoScans(steps)
    ensures Drained(|UnsentRows(s.alerts)|, s.digests, Run(s, steps))
  {
    if steps != [] {
      var n := |steps| - 1;
      BacklogDrains(s, steps[..n]);
      DrainStep(|UnsentRows(s.alerts)|, s.digests, Run(s, steps[..n]), steps[n]);
    }
  }

  lemma DrainStep(backlog: nat, digests: nat, s: State, step: Step)
    requires Drained(backlog, digests, s) && !step.Scan?
    requires step.Select? && s.selected == {} ==> Oldest(s.alerts, step.picked)
    ensures Drained(backlog, digests, Next(s, step))
  {
    if step.Commit? && s.selected != {} {
      LinkUnsent(s.alerts, s.selected, s.digests);
      assert |s.selected| >= 1;
    }
  }

  /** The backlog is down by the digests queued since there were `digests` of them, and the selection is due. */
  ghost predicate Drained(backlog: nat, digests: nat, s: State) {
    && digests <= s.digests <= digests + Hundreds(backlog)
    && |UnsentRows(s.alerts)| == Remaining(backlog, s.digests - digests)
    && (s.selected != {} ==> Oldest(s.alerts, s.selected))
  }

  function Remaining(backlog: nat, digests: nat): nat { if 100 * digests < backlog then backlog - 100 * digests else 0 }

  /** A run whose digests take what the code selects. */
  ghost predicate Selecting(s: State, steps: seq<Step>) {
    steps == [] ||
      var n := |steps| - 1;
      var before := Run(s, steps[..n]);
      && Selecting(s, steps[..n])
      && (steps[n].Select? && before.selected == {} ==> steps[n].picked == Picked(before.alerts))
  }

  /** So every run of the code is one that the results above speak of. */
  lemma {:induction false} SelectingIsFaithful(s: State, steps: seq<Step>)
    requires Selecting(s, steps)
    ensures Faithful(s, steps)
  {
    if steps != [] {
      var n := |steps| - 1;
      SelectingIsFaithful(s, steps[..n]);
      SelectsOldest(Run(s, steps[..n]).alerts);
    }
  }

  /** One undisturbed digest of the rows `picked`, and several of them in a row. */
  function Digest(s: State, picked: set<nat>): State { Next(Next(s, Select(picked)), Commit) }

  function Digests(s: State, picks: seq<set<nat>>): State {
    if picks == [] then s else Digest(Digests(s, picks[..|picks| - 1]), picks[|picks| - 1])
  }

  /** Each of them takes what the query answers at its turn. */
  ghost predicate Queried(s: State, picks: seq<set<nat>>) {
    picks == [] ||
      var n := |picks| - 1;
      Queried(s, picks[..n]) && Oldest(Digests(s, picks[..n]).alerts, picks[n])
  }

  lemma DigestTakes(s: State, picked: set<nat>)
    requires s.selected == {} && Oldest(s.alerts, picked)
    ensures var backlog, t := |UnsentRows(s.alerts)|, Digest(s, picked);
      && |UnsentRows(t.alerts)| == Remaining(backlog, 1)
      && t.digests == s.digests + (if backlog > 0 then 1 else 0)
      && t.selected == {}
  {
    LinkUnsent(s.alerts, picked, s.digests);
    assert picked == {} <==> |picked| == 0;
  }

  lemma RemainingAfter(backlog: nat, n: nat)
    ensures Remaining(Remaining(backlog, n), 1) == Remaining(backlog, n + 1)
    ensures Remaining(backlog, n) == 0 <==> n >= Hundreds(backlog)
  {
  }

  /** From any table, as many digests as the backlog has hundreds clear it, and one fewer does not. */
  lemma {:induction false} BacklogCleared(s: State, picks: seq<set<nat>>)
    requires s.selected == {} && Queried(s, picks)
    ensures var backlog, t, n := |UnsentRows(s.alerts)|, Digests(s, picks), |picks|;
      && |UnsentRows(t.alerts)| == Remaining(backlog, n)
      && t.digests == s.digests + (if n < Hundreds(backlog) then n else Hundreds(backlog))
      && t.selected == {}
      && (UnsentRows(t.alerts) == {} <==> n >= Hundreds(backlog))
  {
    RemainingAfter(|UnsentRows(s.alerts)|, |picks|);
    if picks != [] {
      var n := |picks| - 1;
      BacklogCleared(s, picks[..n]);
      RemainingAfter(|UnsentRows(s.alerts)|, n);
      DigestTakes(Digests(s, picks[..n]), picks[n]);
    }
    assert UnsentRows(Digests(s, picks).alerts) == {} <==> |UnsentRows(Digests(s, picks).alerts)| == 0;
  }

  /** The digests of the code are such, from any table and in any number. */
  lemma {:induction false} DigestsQueried(s: State, n: nat) returns (picks: seq<set<nat>>)
    ensures |picks| == n && Queried(s, picks)
  {
    picks := [];
    if n > 0 {
      var before := DigestsQueried(s, n - 1);
      SelectsOldest(Digests(s, before).alerts);
      picks := before + [Picked(Digests(s, before).alerts)];
      assert picks[..n - 1] == before;
    }
  }

  // ---------------------------------------------------------------------------
  // The alert table

  datatype ComposeResult = NoRecipients | Busy | NothingNew | Composed(alerts: nat)

  class AlertTable {
    var alerts: seq<Alert>
    var digests: nat

    ghost function Value(): State
      reads this
    {
      State(alerts, digests, {})
    }

    constructor ()
      ensures Value() == EMPTY
    {
      alerts, digests := [], 0;
    }

    method FindOpen(kind: Kind, subject: Id) returns (found: bool)
      ensures found == HasOpen(alerts, kind, subject)
    {
      for i := 0 to |alerts|
        invariant forall j :: 0 <= j < i ==> !IsOpen(alerts[j], kind, subject)
      {
        if IsOpen(alerts[i], kind, subject) { return true; }
      }
      return false;
    }

    /** Resolve what is gone, then open what is new. */
    method SyncKind(kind: Kind, findings: seq<Id>, now: int) returns (added: nat, resolved: nat)
      modifies this`alerts
      ensures Value() == Next(old(Value()), Scan(kind, findings, now))
      ensures added == |alerts| - |old(alerts)| && resolved == Gone(old(alerts), kind, findings)
    {
      resolved := 0;
      var i := 0;
      while i < |alerts|
        invariant 0 <= i <= |alerts| == |old(alerts)|
        invariant alerts[..i] == ResolveGone(old(alerts), kind, findings, now)[..i]
        invariant alerts[i..] == old(alerts)[i..]
        invariant resolved == Gone(old(alerts)[..i], kind, findings)
      {
        assert alerts[i] == old(alerts)[i];
        assert old(alerts)[..i + 1][..i] == old(alerts)[..i];
        if alerts[i].kind == kind && alerts[i].resolvedAt.None? && alerts[i].subject !in findings {
          alerts := alerts[i := alerts[i].(resolvedAt := Some(now))];
          resolved := resolved + 1;
        }
        i := i + 1;
      }
      ghost var kept := ResolveGone(old(alerts), kind, findings, now);
      assert alerts == kept && old(alerts)[..i] == old(alerts);
      added := 0;
      var k := 0;
      while k < |findings|
        invariant 0 <= k <= |findings|
        invariant alerts == OpenNew(kept, kind, findings[..k], now)
        invariant |alerts| == |kept| + added
      {
        assert findings[..k + 1][..k] == findings[..k];
        var found := FindOpen(kind, findings[k]);
        if !found {
          alerts := alerts + [Alert(kind, findings[k], now, None, None)];
          added := added + 1;
        }
        k := k + 1;
      }
      assert findings[..k] == findings;
    }

    method PutInOrder(order: seq<nat>, i: nat) returns (r: seq<nat>)
      requires i < |alerts| && forall k :: 0 <= k < |order| ==> order[k] < |alerts|
      ensures r == Insert(alerts, order, i)
    {
      var at := |order|;
      assert order[..at] == order && order + [] == order;
      while at > 0 && alerts[order[at - 1]].openedAt > alerts[i].openedAt
        invariant 0 <= at <= |order|
        invariant Insert(alerts, order, i) == Insert(alerts, order[..at], i) + order[at..]
      {
        assert order[..at][..at - 1] == order[..at - 1];
        at := at - 1;
      }
      r := order[..at] + [i] + order[at..];
    }

    /** The query: unsent rows sorted by opening time, the first hundred of them. */
    method SelectPending() returns (order: seq<nat>)
      ensures order == Selected(alerts)
    {
      order := [];
      var i := 0;
      while i < |alerts|
        invariant 0 <= i <= |alerts|
        invariant order == Ordered(alerts, i)
      {
        if Unsent(alerts[i]) {
          InsertBelow(alerts, order, i);
          order := PutInOrder(order, i);
        }
        i := i + 1;
      }
      if |order| > MAX_ALERTS_PER_EMAIL { order := order[..MAX_ALERTS_PER_EMAIL]; }
    }

    /** The linking update of the selected rows. */
    method LinkRows(order: seq<nat>, email: nat)
      requires forall k :: 0 <= k < |order| ==> order[k] < |alerts|
      modifies this`alerts
      ensures alerts == Link(old(alerts), Elements(order), email)
    {
      var k := 0;
      assert order[..0] == [] && Link(alerts, Elements([]), email) == alerts;
      while k < |order|
        invariant 0 <= k <= |order|
        invariant alerts == Link(old(alerts), Elements(order[..k]), email)
      {
        LinkOneMore(old(alerts), order, k, email);
        alerts := alerts[order[k] := alerts[order[k]].(email := Some(email))];
        k := k + 1;
      }
      assert order[..k] == order;
    }

    /** The email row and the links, which commit together. */
    method CommitDigest(order: seq<nat>)
      requires order != [] && forall k :: 0 <= k < |order| ==> order[k] < |alerts|
      modifies this
      ensures Value() == Next(old(Value()).(selected := Elements(order)), Commit)
    {
      assert order[0] in Elements(order);
      LinkRows(order, digests);
      digests := digests + 1;
    }

    /** One digest, unless there is nobody to send it to, another composer is at work or nothing is unsent. */
    method ComposeDigest(recipients: nat, acquired: bool) returns (result: ComposeResult)
      modifies this
      ensures Value() == if recipients > 0 && acquired then Digest(old(Value()), Picked(old(alerts))) else old(Value())
      ensures result.NoRecipients? <==> recipients == 0
      ensures result.Busy? <==> recipients > 0 && !acquired
      ensures result.Composed? <==> recipients > 0 && acquired && UnsentRows(old(alerts)) != {}
      ensures result.Composed? ==> result.alerts == |Selected(old(alerts))|
    {
      if recipients == 0 { return NoRecipients; }
      if !acquired { return Busy; }
      SelectsOldest(alerts);
      NothingPicked(alerts);
      var order := SelectPending();
      if order == [] { return NothingNew; }
      CommitDigest(order);
      return Composed(|order|);
    }
  }

  lemma LinkOneMore(alerts: seq<Alert>, order: seq<nat>, k: nat, email: nat)
    requires k < |order| && order[k] < |alerts|
    ensures var linked := Link(alerts, Elements(order[..k]), email);
      Link(alerts, Elements(order[..k + 1]), email) == linked[order[k] := linked[order[k]].(email := Some(email))]
  {
    ElementsAppend(order[..k], order[k]);
    assert order[..k] + [order[k]] == order[..k + 1];
  }

  lemma NothingPicked(alerts: seq<Alert>)
    requires Oldest(alerts, Picked(alerts))
    ensures Selected(alerts) == [] <==> UnsentRows(alerts) == {}
    ensures Selected(alerts) == [] <==> Picked(alerts) == {}
  {
    if Selected(alerts) != [] { assert Selected(alerts)[0] in Picked(alerts); }
    assert UnsentRows(alerts) == {} <==> |UnsentRows(alerts)| == 0;
  }
}
