/**
 * The alert outbox (src/modules/alerts/deliver.ts, src/modules/alerts/resend.ts): workers claim rows
 * under a lease, send, and finish. Any number of workers interleave; any of them may stop for good at
 * any point, or outlive its lease. A request, once sent, goes its own way: it may reach the email
 * provider late or never, whatever has become of its worker, and its answer may be lost. The provider
 * is taken to be idempotent per row id, and a reply to say truly what became of its request.
 */
module AlertDelivery {
  import opened Common

  const MAX_ATTEMPTS := 6
  const LEASE_MS := 120_000
  const BASE_BACKOFF_MS := 60_000
  const MAX_BACKOFF_MS := 1_800_000
  const BATCH := 5

  datatype Status = Pending | Sending | Sent | Failed

  datatype Row = Row(status: Status, availableAt: int, leaseUntil: int, attempts: nat)

  datatype Answer = Accepted | Refused(retryable: bool)

  /** What has become of a worker's request: not made yet, somewhere on the network, or handled by the provider. */
  datatype Request = Unsent | OnItsWay | Handled(reply: Answer)

  /** What the worker itself knows. */
  datatype Stage = Claimed | Answered(answer: Answer) | Ended

  /** A worker busy with one row; `fence` is the attempt count its claim returned. */
  datatype Worker = Worker(row: Id, fence: nat, now: int, stage: Stage, request: Request)

  /**
   * `delivered` are the rows the provider has accepted; `lapses` counts claims of expired leases, and
   * `lost` the requests whose answer never reached their worker, row by row.
   */
  datatype System = System(rows: seq<Row>, workers: seq<Worker>, delivered: seq<Id>, lapses: seq<nat>, lost: seq<nat>)

  datatype Step =
    | Enqueue(now: int)
    | Claim(row: Id, at: int)
    | Send(worker: nat)
    | Arrive(worker: nat, reply: Answer)
    | Hear(worker: nat)
    | TimeOut(worker: nat)
    | Finish(worker: nat)
    | Crash(worker: nat)

  function Pow2(n: nat): nat { if n == 0 then 1 else 2 * Pow2(n - 1) }

  function BackoffMs(attempt: nat): nat {
    var delay := BASE_BACKOFF_MS * Pow2(if attempt >= 1 then attempt - 1 else 0);
    if delay < MAX_BACKOFF_MS then delay else MAX_BACKOFF_MS
  }

  predicate Due(r: Row, now: int) {
    (r.status == Pending && r.availableAt <= now) || (r.status == Sending && r.leaseUntil <= now)
  }

  /** The row as a claim leaves it. */
  function ClaimedRow(r: Row, now: int): Row {
    r.(status := Sending, leaseUntil := now + LEASE_MS, attempts := r.attempts + 1)
  }

  /** The claiming update, conditional on the row still being due. */
  function ClaimStep(s: System, row: Id, now: int): System {
    if row >= |s.rows| || row >= |s.lapses| || !Due(s.rows[row], now) then s
    else
      var r := s.rows[row];
      s.(rows := s.rows[row := ClaimedRow(r, now)],
         workers := s.workers + [Worker(row, r.attempts + 1, now, Claimed, Unsent)],
         lapses := if r.status == Sending then s.lapses[row := s.lapses[row] + 1] else s.lapses)
  }

  function SetWorker(s: System, w: nat, worker: Worker): System
    requires w < |s.workers|
  {
    s.(workers := s.workers[w := worker])
  }

  function SendStep(s: System, w: nat): System {
    if w >= |s.workers| || s.workers[w].stage != Claimed || s.workers[w].request != Unsent then s
    else SetWorker(s, w, s.workers[w].(request := OnItsWay))
  }

  /** The provider gets to a request; a row it accepted before is not emailed again. */
  function ArriveStep(s: System, w: nat, reply: Answer): System {
    if w >= |s.workers| || s.workers[w].request != OnItsWay then s
    else
      var row := s.workers[w].row;
      SetWorker(s, w, s.workers[w].(request := Handled(reply)))
        .(delivered := if reply == Accepted && row !in s.delivered then s.delivered + [row] else s.delivered)
  }

  function HearStep(s: System, w: nat): System {
    if w >= |s.workers| || s.workers[w].stage != Claimed || !s.workers[w].request.Handled? then s
    else SetWorker(s, w, s.workers[w].(stage := Answered(s.workers[w].request.reply)))
  }

  /** Timeout or network failure: the worker takes it for a retryable refusal, wherever the request is. */
  function TimeOutStep(s: System, w: nat): System {
    if w >= |s.workers| || s.workers[w].stage != Claimed || s.workers[w].request == Unsent ||
      s.workers[w].row >= |s.lost| then s
    else
      var row := s.workers[w].row;
      SetWorker(s, w, s.workers[w].(stage := Answered(Refused(true)))).(lost := s.lost[row := s.lost[row] + 1])
  }

  /** Where a finished attempt leaves its row. */
  function Finished(r: Row, fence: nat, now: int, answer: Answer): Row {
    if answer == Accepted then r.(status := Sent)
    else if answer.retryable && fence < MAX_ATTEMPTS then r.(status := Pending, availableAt := now + BackoffMs(fence))
    else r.(status := Failed)
  }

  /** The finishing update, conditional on the lease still being held. */
  function FinishStep(s: System, w: nat): System {
    if w >= |s.workers| || !s.workers[w].stage.Answered? then s
    else
      var worker := s.workers[w];
      var ended := SetWorker(s, w, worker.(stage := Ended));
      if worker.row < |s.rows| && Holds(s, w)
      then ended.(rows := s.rows[worker.row :=
             Finished(s.rows[worker.row], worker.fence, worker.now, worker.stage.answer)])
      else ended
  }

  /** The worker is gone; its request, if it was sent, is not. */
  function CrashStep(s: System, w: nat): System {
    if w < |s.workers| then SetWorker(s, w, s.workers[w].(stage := Ended)) else s
  }

  /** Worker `w` still holds its row: nobody has claimed it since. */
  predicate Holds(s: System, w: nat)
    requires w < |s.workers|
  {
    var row := s.workers[w].row;
    row < |s.rows| && s.rows[row].status == Sending && s.rows[row].attempts == s.workers[w].fence
  }

  function Next(s: System, step: Step): System {
    match step
    case Enqueue(now) => s.(rows := s.rows + [Row(Pending, now, 0, 0)], lapses := s.lapses + [0], lost := s.lost + [0])
    case Claim(row, now) => ClaimStep(s, row, now)
    case Send(w) => SendStep(s, w)
    case Arrive(w, reply) => ArriveStep(s, w, reply)
    case Hear(w) => HearStep(s, w)
    case TimeOut(w) => TimeOutStep(s, w)
    case Finish(w) => FinishStep(s, w)
    case Crash(w) => CrashStep(s, w)
  }

  function Run(s: System, steps: seq<Step>): System {
    if steps == [] then s else Next(Run(s, steps[..|steps| - 1]), steps[|steps| - 1])
  }

  const EMPTY := System([], [], [], [], [])

  lemma RunOn(s: System, steps: seq<Step>, step: Step)
    ensures Run(s, steps + [step]) == Next(Run(s, steps), step)
  {
    assert (steps + [step])[..|steps|] == steps;
  }

  // ---------------------------------------------------------------------------
  // Invariant

  predicate RowOk(s: System, row: Id)
    requires row < |s.rows| == |s.lapses|
  {
    var r := s.rows[row];
    && (r.status == Pending ==> r.attempts < 6)
    && (r.status == Sending ==> r.attempts >= 1)
    && r.attempts <= 6 + s.lapses[row]
    && (r.status == Sent ==> row in s.delivered)
  }

  predicate WorkerOk(s: System, w: nat)
    requires w < |s.workers|
  {
    var worker := s.workers[w];
    && worker.row < |s.rows| && 1 <= worker.fence <= s.rows[worker.row].attempts
    && (worker.stage == Answered(Accepted) || worker.request == Handled(Accepted) ==> worker.row in s.delivered)
  }

  predicate Fenced(s: System) {
    forall v, w :: 0 <= v < w < |s.workers| && s.workers[v].row == s.workers[w].row ==>
      s.workers[v].fence < s.workers[w].fence
  }

  predicate DeliveredOnce(s: System) {
    && (forall i :: 0 <= i < |s.delivered| ==> s.delivered[i] < |s.rows|)
    && (forall i, j :: 0 <= i < j < |s.delivered| ==> s.delivered[i] != s.delivered[j])
  }

  predicate Inv(s: System) {
    && |s.lapses| == |s.rows| == |s.lost|
    && (forall row :: 0 <= row < |s.rows| ==> RowOk(s, row))
    && (forall w :: 0 <= w < |s.workers| ==> WorkerOk(s, w))
    && Fenced(s) && DeliveredOnce(s)
  }

  lemma EnqueueKeeps(s: System, now: int)
    requires Inv(s)
    ensures Inv(Next(s, Enqueue(now)))
  {
    var s' := Next(s, Enqueue(now));
    forall r | 0 <= r < |s'.rows| ensures RowOk(s', r) { if r < |s.rows| { assert RowOk(s, r); } }
    forall v | 0 <= v < |s'.workers| ensures WorkerOk(s', v) { assert WorkerOk(s, v); }
  }

  lemma ClaimKeeps(s: System, row: Id, now: int)
    requires Inv(s)
    ensures Inv(ClaimStep(s, row, now))
  {
    var s' := ClaimStep(s, row, now);
    if row < |s.rows| && Due(s.rows[row], now) {
      forall r | 0 <= r < |s'.rows| ensures RowOk(s', r) { assert RowOk(s, r); }
      forall w | 0 <= w < |s'.workers| ensures WorkerOk(s', w) {
        if w < |s.workers| { assert WorkerOk(s, w); }
      }
      forall v, w | 0 <= v < w < |s'.workers| && s'.workers[v].row == s'.workers[w].row
        ensures s'.workers[v].fence < s'.workers[w].fence
      {
        if w == |s.workers| { assert WorkerOk(s, v); }
      }
    }
  }

  /** A worker moves on, or its request does, while the rows stay as they are. */
  lemma WorkerKeeps(s: System, w: nat, worker: Worker, lost: seq<nat>)
    requires Inv(s) && w < |s.workers| && |lost| == |s.lost|
    requires worker.row == s.workers[w].row && worker.fence == s.workers[w].fence
    requires worker.stage == Answered(Accepted) || worker.request == Handled(Accepted) ==> worker.row in s.delivered
    ensures Inv(SetWorker(s, w, worker).(lost := lost))
  {
    var s' := SetWorker(s, w, worker).(lost := lost);
    assert WorkerOk(s, w);
    forall r | 0 <= r < |s'.rows| ensures RowOk(s', r) { assert RowOk(s, r); }
    forall v | 0 <= v < |s'.workers| ensures WorkerOk(s', v) { assert WorkerOk(s, v); }
  }

  /** One more row accepted. */
  lemma DeliveryKeeps(s: System, row: Id)
    requires Inv(s) && row < |s.rows| && row !in s.delivered
    ensures Inv(s.(delivered := s.delivered + [row])) && row in s.delivered + [row]
  {
    var s' := s.(delivered := s.delivered + [row]);
    assert s'.delivered[|s.delivered|] == row;
    assert forall i: Id :: i in s.delivered ==> i in s'.delivered;
    forall r | 0 <= r < |s'.rows| ensures RowOk(s', r) { assert RowOk(s, r); }
    forall v | 0 <= v < |s'.workers| ensures WorkerOk(s', v) { assert WorkerOk(s, v); }
  }

  lemma ArriveKeeps(s: System, w: nat, reply: Answer)
    requires Inv(s)
    ensures Inv(ArriveStep(s, w, reply))
  {
    if w < |s.workers| && s.workers[w].request == OnItsWay {
      assert WorkerOk(s, w);
      var row := s.workers[w].row;
      var t := s;
      if reply == Accepted && row !in s.delivered {
        DeliveryKeeps(s, row);
        t := s.(delivered := s.delivered + [row]);
      }
      WorkerKeeps(t, w, s.workers[w].(request := Handled(reply)), t.lost);
    }
  }

  lemma HearKeeps(s: System, w: nat)
    requires Inv(s)
    ensures Inv(HearStep(s, w)) && Inv(TimeOutStep(s, w))
  {
    if w < |s.workers| && s.workers[w].stage == Claimed && s.workers[w].request != Unsent {
      assert WorkerOk(s, w);
      var worker := s.workers[w];
      if worker.request.Handled? { WorkerKeeps(s, w, worker.(stage := Answered(worker.request.reply)), s.lost); }
      WorkerKeeps(s, w, worker.(stage := Answered(Refused(true))), s.lost[worker.row := s.lost[worker.row] + 1]);
    }
  }

  lemma StopKeeps(s: System, w: nat)
    requires Inv(s)
    ensures Inv(SendStep(s, w)) && Inv(CrashStep(s, w))
  {
    if w < |s.workers| {
      assert WorkerOk(s, w);
      WorkerKeeps(s, w, s.workers[w].(stage := Ended), s.lost);
      WorkerKeeps(s, w,
        s.workers[w].(request := if s.workers[w].request == Unsent then OnItsWay else s.workers[w].request), s.lost);
    }
  }

  lemma FinishKeeps(s: System, w: nat)
    requires Inv(s)
    ensures Inv(FinishStep(s, w))
  {
    var s' := FinishStep(s, w);
    if w < |s.workers| && s.workers[w].stage.Answered? {
      assert WorkerOk(s, w);
      forall r | 0 <= r < |s'.rows| ensures RowOk(s', r) { assert RowOk(s, r); }
      forall v | 0 <= v < |s'.workers| ensures WorkerOk(s', v) { assert WorkerOk(s, v); }
    }
  }

  lemma StepKeeps(s: System, step: Step)
    requires Inv(s)
    ensures Inv(Next(s, step))
  {
    match step
    case Enqueue(now) => EnqueueKeeps(s, now);
    case Claim(row, now) => ClaimKeeps(s, row, now);
    case Send(w) => StopKeeps(s, w);
    case Arrive(w, reply) => ArriveKeeps(s, w, reply);
    case Hear(w) => HearKeeps(s, w);
    case TimeOut(w) => HearKeeps(s, w);
    case Finish(w) => FinishKeeps(s, w);
    case Crash(w) => StopKeeps(s, w);
  }

  lemma {:induction false} EveryRun(steps: seq<Step>)
    ensures Inv(Run(EMPTY, steps))
  {
    if steps != [] {
      EveryRun(steps[..|steps| - 1]);
      StepKeeps(Run(EMPTY, steps[..|steps| - 1]), steps[|steps| - 1]);
    }
  }

  // ---------------------------------------------------------------------------
  // Fencing and final states, over whole runs

  /** Rows are never lost, attempts only grow, and a SENT or FAILED row never changes again. */
  predicate RowsGrow(s: System, t: System) {
    && |s.rows| <= |t.rows| && |s.workers| <= |t.workers|
    && (forall row :: 0 <= row < |s.rows| ==>
          && s.rows[row].attempts <= t.rows[row].attempts
          && (s.rows[row].status in {Sent, Failed} ==> t.rows[row] == s.rows[row]))
    && (forall w :: 0 <= w < |s.workers| ==>
         t.workers[w].row == s.workers[w].row && t.workers[w].fence == s.workers[w].fence)
  }

  lemma {:induction false} RunGrows(s: System, steps: seq<Step>)
    ensures RowsGrow(s, Run(s, steps))
  {
    if steps != [] {
      RunGrows(s, steps[..|steps| - 1]);
      StepGrows(Run(s, steps[..|steps| - 1]), steps[|steps| - 1]);
    }
  }

  lemma StepGrows(s: System, step: Step)
    ensures RowsGrow(s, Next(s, step))
  {
  }

  /** SENT and FAILED are absorbing. */
  lemma FinalRowsStay(s: System, steps: seq<Step>, row: Id)
    requires row < |s.rows| && s.rows[row].status in {Sent, Failed}
    ensures row < |Run(s, steps).rows| && Run(s, steps).rows[row] == s.rows[row]
  {
    RunGrows(s, steps);
  }

  /** A worker whose row was claimed again has lost it for good: whatever happens, its finish writes no row. */
  lemma StaleForever(s: System, steps: seq<Step>, w: nat)
    requires w < |s.workers| && s.workers[w].row < |s.rows|
    requires s.rows[s.workers[w].row].attempts > s.workers[w].fence
    ensures Next(Run(s, steps), Finish(w)).rows == Run(s, steps).rows
  {
    RunGrows(s, steps);
  }

  /** At any moment one worker at most can still write a given row: the one with the latest claim. */
  lemma OneHolder(steps: seq<Step>, v: nat, w: nat)
    requires var s := Run(EMPTY, steps);
      v < |s.workers| && w < |s.workers| && s.workers[v].row == s.workers[w].row && Holds(s, v) && Holds(s, w)
    ensures v == w
  {
    EveryRun(steps);
  }

  /** Two workers racing for one row: the second claim changes nothing exactly while the two-minute lease runs. */
  lemma ClaimRace(s: System, row: Id, first: int, second: int)
    requires row < |s.rows| == |s.lapses| && Due(s.rows[row], first)
    ensures ClaimStep(ClaimStep(s, row, first), row, second) == ClaimStep(s, row, first) <==> second < first + 120_000
  {
    assert ClaimStep(ClaimStep(s, row, first), row, second) != ClaimStep(s, row, first) ==>
      ClaimStep(s, row, first).rows[row].leaseUntil <= second;
    if second >= first + 120_000 {
      assert |ClaimStep(ClaimStep(s, row, first), row, second).workers| == |ClaimStep(s, row, first).workers| + 1;
    }
  }

  /**
   * In every run: a PENDING row has attempts left, no row is attempted more than six times beyond
   * its lapsed leases, a SENT row was accepted by the provider, and no row is emailed twice.
   */
  lemma DeliveryBounds(steps: seq<Step>, row: Id)
    requires row < |Run(EMPTY, steps).rows|
    ensures var s := Run(EMPTY, steps);
      && |s.lapses| == |s.rows|
      && (s.rows[row].status == Pending ==> s.rows[row].attempts < 6)
      && s.rows[row].attempts <= 6 + s.lapses[row]
      && (s.rows[row].status == Sent ==> row in s.delivered)
      && multiset(s.delivered)[row] <= 1
  {
    EveryRun(steps);
    var s := Run(EMPTY, steps);
    assert RowOk(s, row);
    DistinctCount(s.delivered, row);
  }

  lemma {:induction false} DistinctCount(ids: seq<Id>, row: Id)
    requires forall i, j :: 0 <= i < j < |ids| ==> ids[i] != ids[j]
    ensures multiset(ids)[row] <= 1
  {
    if ids != [] {
      var n := |ids| - 1;
      DistinctCount(ids[..n], row);
      assert ids == ids[..n] + [ids[n]];
      if ids[n] == row {
        assert row !in ids[..n];
      }
    }
  }

  /** A worker's fence counts the claims of its row up to its own, so fences are never reused. */
  lemma FencesIncrease(steps: seq<Step>, v: nat, w: nat)
    requires var s := Run(EMPTY, steps); v < w < |s.workers| && s.workers[v].row == s.workers[w].row
    ensures var s := Run(EMPTY, steps);
      && s.workers[w].row < |s.rows|
      && s.workers[v].fence < s.workers[w].fence <= s.rows[s.workers[w].row].attempts
  {
    EveryRun(steps);
    assert WorkerOk(Run(EMPTY, steps), w);
  }

  // ---------------------------------------------------------------------------
  // How often the provider is asked

  predicate Asks(s: System, step: Step, row: Id) {
    step.Send? && step.worker < |s.workers| && Ready(s.workers[step.worker], row)
  }

  /** The worker has claimed the row and not made its request. */
  predicate Ready(worker: Worker, row: Id) { worker.row == row && worker.stage == Claimed && worker.request == Unsent }

  /** Requests made for a row. */
  function Requests(steps: seq<Step>, row: Id): nat {
    if steps == [] then 0 else
      var n := |steps| - 1;
      Requests(steps[..n], row) + (if Asks(Run(EMPTY, steps[..n]), steps[n], row) then 1 else 0)
  }

  /** Requests for a row that live workers are about to make. */
  function Waiting(workers: seq<Worker>, row: Id): nat {
    if workers == [] then 0 else
      var n := |workers| - 1;
      Waiting(workers[..n], row) + (if Ready(workers[n], row) then 1 else 0)
  }

  lemma {:induction false} WaitingAfter(workers: seq<Worker>, w: nat, worker: Worker, row: Id)
    requires w < |workers|
    ensures Waiting(workers[w := worker], row) + (if Ready(workers[w], row) then 1 else 0)
      == Waiting(workers, row) + (if Ready(worker, row) then 1 else 0)
  {
    var n := |workers| - 1;
    if w < n {
      WaitingAfter(workers[..n], w, worker, row);
      assert workers[w := worker][..n] == workers[..n][w := worker];
    } else {
      assert workers[w := worker][..n] == workers[..n];
    }
  }

  lemma {:induction false} NoneWaiting(workers: seq<Worker>, row: Id)
    requires forall w :: 0 <= w < |workers| ==> workers[w].row != row
    ensures Waiting(workers, row) == 0
  {
    if workers != [] { NoneWaiting(workers[..|workers| - 1], row); }
  }

  lemma WaitingClaim(s: System, claimed: Id, now: int, row: Id)
    requires |s.lapses| == |s.rows| && row < |s.rows|
    ensures Waiting(ClaimStep(s, claimed, now).workers, row) + s.rows[row].attempts
      == Waiting(s.workers, row) + ClaimStep(s, claimed, now).rows[row].attempts
  {
    var s' := ClaimStep(s, claimed, now);
    if claimed < |s.rows| && Due(s.rows[claimed], now) {
      assert s'.workers[..|s.workers|] == s.workers;
    }
  }

  /** A step of one worker: it makes its request, or stops being ready to. */
  lemma WaitingOne(s: System, step: Step, w: nat, worker: Worker, row: Id)
    requires w < |s.workers| && (Ready(worker, row) ==> Ready(s.workers[w], row))
    requires Asks(s, step, row) ==> step.worker == w && !Ready(worker, row)
    ensures Waiting(s.workers[w := worker], row) + (if Asks(s, step, row) then 1 else 0) <= Waiting(s.workers, row)
  {
    WaitingAfter(s.workers, w, worker, row);
  }

  lemma WorkerOnly(s: System, step: Step)
    requires !step.Enqueue? && !step.Claim?
    ensures Next(s, step).workers == s.workers
      || (step.worker < |s.workers|
          && Next(s, step).workers == s.workers[step.worker := Next(s, step).workers[step.worker]]
          && (Next(s, step).workers[step.worker].request == Unsent ==> s.workers[step.worker].request == Unsent)
          && (Next(s, step).workers[step.worker].stage == Claimed ==> s.workers[step.worker].stage == Claimed)
          && Next(s, step).workers[step.worker].row == s.workers[step.worker].row
          && (step.Send? ==> Next(s, step).workers[step.worker].request != Unsent))
    ensures step.Send? && Next(s, step).workers == s.workers ==>
      step.worker >= |s.workers| || s.workers[step.worker].stage != Claimed || s.workers[step.worker].request != Unsent
  {
  }

  /** No step lets a row's requests, made and to come, outgrow its attempts. */
  lemma WaitingStep(s: System, step: Step, row: Id)
    requires |s.lapses| == |s.rows| && row < |s.rows|
    ensures row < |Next(s, step).rows|
    ensures Waiting(Next(s, step).workers, row) + (if Asks(s, step, row) then 1 else 0) + s.rows[row].attempts
      <= Waiting(s.workers, row) + Next(s, step).rows[row].attempts
  {
    StepGrows(s, step);
    if step.Claim? {
      WaitingClaim(s, step.row, step.at, row);
    } else if !step.Enqueue? {
      WorkerOnly(s, step);
      if Next(s, step).workers != s.workers {
        WaitingOne(s, step, step.worker, Next(s, step).workers[step.worker], row);
      }
    }
  }

  lemma UnseenRow(s: System, step: Step, row: Id)
    requires row >= |s.rows| && forall w :: 0 <= w < |s.workers| ==> s.workers[w].row != row
    ensures !Asks(s, step, row) && Waiting(Next(s, step).workers, row) == 0
  {
    StepGrows(s, step);
    NoneWaiting(Next(s, step).workers, row);
  }

  lemma {:induction false} RequestsWithinAttempts(steps: seq<Step>, row: Id)
    ensures var s := Run(EMPTY, steps);
      Requests(steps, row) + Waiting(s.workers, row) <= if row < |s.rows| then s.rows[row].attempts else 0
  {
    if steps != [] {
      var n := |steps| - 1;
      var before := Run(EMPTY, steps[..n]);
      RequestsWithinAttempts(steps[..n], row);
      EveryRun(steps[..n]);
      if row < |before.rows| {
        WaitingStep(before, steps[n], row);
      } else {
        forall w | 0 <= w < |before.workers| ensures before.workers[w].row != row { assert WorkerOk(before, w); }
        UnseenRow(before, steps[n], row);
      }
    }
  }

  /** The provider is asked at most once per attempt, so at most six times beyond the lapsed leases. */
  lemma RequestsBounded(steps: seq<Step>, row: Id)
    requires row < |Run(EMPTY, steps).rows|
    ensures var s := Run(EMPTY, steps);
      |s.lapses| == |s.rows| && Requests(steps, row) <= s.rows[row].attempts <= 6 + s.lapses[row]
  {
    RequestsWithinAttempts(steps, row);
    DeliveryBounds(steps, row);
  }

  // ---------------------------------------------------------------------------
  // What a FAILED row says of its email

  /** The request can still reach the provider: it is on its way, or its worker is alive and about to make it. */
  predicate Outstanding(worker: Worker) {
    worker.request == OnItsWay || (worker.request == Unsent && worker.stage == Claimed)
  }

  ghost predicate NothingOutstanding(s: System, row: Id) {
    forall w :: 0 <= w < |s.workers| && s.workers[w].row == row ==> !Outstanding(s.workers[w])
  }

  /** A failed row stays out of the mail as long as no request for it is outstanding. */
  ghost predicate Dead(s: System, row: Id) {
    row < |s.rows| && s.rows[row].status == Failed && row !in s.delivered && NothingOutstanding(s, row)
  }

  lemma DeadWorkers(s: System, step: Step, row: Id)
    requires Dead(s, row)
    ensures NothingOutstanding(Next(s, step), row)
  {
  }

  /** Only a request that arrives can deliver a row. */
  lemma NotDelivered(s: System, step: Step, row: Id)
    requires row !in s.delivered && NothingOutstanding(s, row)
    ensures row !in Next(s, step).delivered
  {
  }

  lemma {:induction false} DeadStays(s: System, steps: seq<Step>, row: Id)
    requires Dead(s, row)
    ensures Dead(Run(s, steps), row)
  {
    if steps != [] {
      var n := |steps| - 1;
      var before := Run(s, steps[..n]);
      DeadStays(s, steps[..n], row);
      StepGrows(before, steps[n]);
      DeadWorkers(before, steps[n], row);
      NotDelivered(before, steps[n], row);
    }
  }

  lemma OutstandingDelivers(s: System, w: nat)
    requires w < |s.workers| && Outstanding(s.workers[w])
    ensures s.workers[w].row in Run(s, [Send(w), Arrive(w, Accepted)]).delivered
  {
    var steps := [Send(w), Arrive(w, Accepted)];
    var t := SendStep(s, w);
    assert steps[..1] == [Send(w)] && steps[..1][..0] == [];
    assert Run(s, steps[..1]) == t && Run(s, steps) == ArriveStep(t, w, Accepted);
    var row := s.workers[w].row;
    if row !in s.delivered { assert ArriveStep(t, w, Accepted).delivered[|s.delivered|] == row; }
  }

  /**
   * FAILED means undelivered, now and whatever happens next, exactly when the provider has not
   * accepted the row and no request for it is outstanding.
   */
  lemma FailedMeansUndelivered(s: System, row: Id)
    requires row < |s.rows| && s.rows[row].status == Failed
    ensures (forall steps: seq<Step> :: row !in Run(s, steps).delivered) <==>
      row !in s.delivered && NothingOutstanding(s, row)
  {
    if Dead(s, row) {
      forall steps: seq<Step> ensures row !in Run(s, steps).delivered { DeadStays(s, steps, row); }
    } else if row in s.delivered {
      assert row in Run(s, []).delivered;
    } else {
      var w :| 0 <= w < |s.workers| && s.workers[w].row == row && Outstanding(s.workers[w]);
      OutstandingDelivers(s, w);
    }
  }

  // ---------------------------------------------------------------------------
  // What the row itself can tell

  /** Worker `w` is through with its row: it has ended, knowing what became of its request. */
  predicate Done(worker: Worker) { worker.stage == Ended && worker.request.Handled? }

  /** Worker `w` holds its row, knows the truth if it knows anything, and nobody else delivered the row. */
  predicate HeldBy(s: System, w: nat)
    requires w < |s.workers|
  {
    var worker := s.workers[w];
    && Holds(s, w)
    && (worker.stage.Answered? ==> worker.request == Handled(worker.stage.answer))
    && (worker.row in s.delivered ==> worker.request == Handled(Accepted))
  }

  /** As long as no lease of a row has lapsed and no answer was lost, one worker at most is busy with it. */
  predicate Undisturbed(s: System, row: Id)
    requires row < |s.rows|
  {
    && (row in s.delivered ==> s.rows[row].status in {Sending, Sent})
    && (forall w :: 0 <= w < |s.workers| && s.workers[w].row == row ==> Done(s.workers[w]) || HeldBy(s, w))
  }

  predicate NoTrouble(s: System, row: Id) {
    row < |s.lapses| && row < |s.lost| && s.lapses[row] == 0 && s.lost[row] == 0
  }

  lemma UndisturbedClaim(s: System, row: Id, claimed: Id, now: int)
    requires Inv(s) && row < |s.rows| && NoTrouble(ClaimStep(s, claimed, now), row) && Undisturbed(s, row)
    ensures Undisturbed(ClaimStep(s, claimed, now), row)
  {
    var s' := ClaimStep(s, claimed, now);
    forall w | 0 <= w < |s'.workers| && s'.workers[w].row == row ensures Done(s'.workers[w]) || HeldBy(s', w) {
      if w < |s.workers| { assert Done(s.workers[w]) || HeldBy(s, w); }
    }
  }

  /** Two workers that are not through with the same row are one. */
  lemma OneBusy(s: System, row: Id, v: nat, w: nat)
    requires Inv(s) && row < |s.rows| && Undisturbed(s, row)
    requires v < |s.workers| && w < |s.workers| && s.workers[v].row == row == s.workers[w].row
    requires !Done(s.workers[v]) && !Done(s.workers[w])
    ensures v == w && HeldBy(s, v)
  {
    assert HeldBy(s, v) && HeldBy(s, w);
  }

  lemma UndisturbedArrive(s: System, row: Id, v: nat, reply: Answer)
    requires Inv(s) && row < |s.rows| && Undisturbed(s, row)
    ensures Undisturbed(ArriveStep(s, v, reply), row)
  {
    var s' := ArriveStep(s, v, reply);
    if v < |s.workers| && s.workers[v].request == OnItsWay {
      if s.workers[v].row == row { OneBusy(s, row, v, v); }
      forall w | 0 <= w < |s'.workers| && s'.workers[w].row == row ensures Done(s'.workers[w]) || HeldBy(s', w) {
        assert Done(s.workers[w]) || HeldBy(s, w);
        if s.workers[v].row == row && !Done(s.workers[w]) { OneBusy(s, row, v, w); }
      }
    }
  }

  /** A worker of the row moves on; the rows and the mail stay as they are. */
  lemma UndisturbedMove(s: System, s': System, row: Id, v: nat)
    requires row < |s.rows| && Undisturbed(s, row) && v < |s.workers|
    requires s'.rows == s.rows && s'.delivered == s.delivered
    requires |s'.workers| == |s.workers| && s'.workers == s.workers[v := s'.workers[v]]
    requires s'.workers[v].row == s.workers[v].row && s'.workers[v].fence == s.workers[v].fence
    requires s.workers[v].row == row ==> Done(s'.workers[v]) || HeldBy(s', v)
    ensures Undisturbed(s', row)
  {
    forall w | 0 <= w < |s'.workers| && s'.workers[w].row == row ensures Done(s'.workers[w]) || HeldBy(s', w) {
      assert Done(s.workers[w]) || HeldBy(s, w);
    }
  }

  lemma UndisturbedTalk(s: System, row: Id, v: nat)
    requires row < |s.rows| && Undisturbed(s, row)
    ensures Undisturbed(SendStep(s, v), row) && Undisturbed(HearStep(s, v), row) && Undisturbed(CrashStep(s, v), row)
    ensures row < |s.lost| && TimeOutStep(s, v).lost[row] == s.lost[row] ==> Undisturbed(TimeOutStep(s, v), row)
  {
    if v < |s.workers| {
      assert s.workers[v].row == row ==> Done(s.workers[v]) || HeldBy(s, v);
      UndisturbedMove(s, SendStep(s, v), row, v);
      UndisturbedMove(s, HearStep(s, v), row, v);
      UndisturbedMove(s, CrashStep(s, v), row, v);
      if s.workers[v].row != row { UndisturbedMove(s, TimeOutStep(s, v), row, v); }
    }
  }

  lemma UndisturbedFinish(s: System, row: Id, v: nat)
    requires Inv(s) && row < |s.rows| && Undisturbed(s, row)
    ensures Undisturbed(FinishStep(s, v), row)
  {
    var s' := FinishStep(s, v);
    if v < |s.workers| && s.workers[v].stage.Answered? {
      if s.workers[v].row == row { OneBusy(s, row, v, v); }
      forall w | 0 <= w < |s'.workers| && s'.workers[w].row == row ensures Done(s'.workers[w]) || HeldBy(s', w) {
        assert Done(s.workers[w]) || HeldBy(s, w);
        if s.workers[v].row == row && !Done(s.workers[w]) { OneBusy(s, row, v, w); }
      }
    }
  }

  lemma UndisturbedEnqueue(s: System, row: Id, now: int)
    requires Inv(s) && row <= |s.rows| && (row < |s.rows| ==> Undisturbed(s, row))
    ensures Undisturbed(Next(s, Enqueue(now)), row)
  {
    var s' := Next(s, Enqueue(now));
    forall w | 0 <= w < |s'.workers| && s'.workers[w].row == row ensures Done(s'.workers[w]) || HeldBy(s', w) {
      assert WorkerOk(s, w);
      assert Done(s.workers[w]) || HeldBy(s, w);
    }
  }

  lemma UndisturbedStep(s: System, step: Step, row: Id)
    requires Inv(s) && row < |s.rows| && NoTrouble(Next(s, step), row) && NoTrouble(s, row) && Undisturbed(s, row)
    ensures Undisturbed(Next(s, step), row)
  {
    match step
    case Enqueue(now) => UndisturbedEnqueue(s, row, now);
    case Claim(claimed, now) => UndisturbedClaim(s, row, claimed, now);
    case Send(w) => UndisturbedTalk(s, row, w);
    case Arrive(w, reply) => UndisturbedArrive(s, row, w, reply);
    case Hear(w) => UndisturbedTalk(s, row, w);
    case TimeOut(w) => UndisturbedTalk(s, row, w);
    case Finish(w) => UndisturbedFinish(s, row, w);
    case Crash(w) => UndisturbedTalk(s, row, w);
  }

  lemma TroubleStays(s: System, step: Step, row: Id)
    requires row < |s.lapses| && row < |s.lost| && NoTrouble(Next(s, step), row)
    ensures NoTrouble(s, row)
  {
  }

  lemma {:induction false} RunUndisturbed(steps: seq<Step>, row: Id)
    requires row < |Run(EMPTY, steps).rows| && NoTrouble(Run(EMPTY, steps), row)
    ensures Undisturbed(Run(EMPTY, steps), row)
  {
    var n := |steps| - 1;
    var before := Run(EMPTY, steps[..n]);
    EveryRun(steps[..n]);
    if row < |before.rows| {
      TroubleStays(before, steps[n], row);
      RunUndisturbed(steps[..n], row);
      UndisturbedStep(before, steps[n], row);
    } else {
      NewRow(before, steps[n]);
      UndisturbedEnqueue(before, row, steps[n].now);
    }
  }

  lemma NewRow(s: System, step: Step)
    ensures |Next(s, step).rows| <= |s.rows| + 1 && (|Next(s, step).rows| > |s.rows| ==> step.Enqueue?)
  {
  }

  /**
   * A row that failed without a lapsed lease and without a lost answer was never delivered and never
   * will be.
   */
  lemma FailedForSure(steps: seq<Step>, row: Id, more: seq<Step>)
    requires var s := Run(EMPTY, steps); row < |s.rows| && s.rows[row].status == Failed && NoTrouble(s, row)
    ensures row !in Run(Run(EMPTY, steps), more).delivered
  {
    var s := Run(EMPTY, steps);
    RunUndisturbed(steps, row);
    forall w | 0 <= w < |s.workers| && s.workers[w].row == row ensures !Outstanding(s.workers[w]) {
    }
    FailedMeansUndelivered(s, row);
  }

  // ---------------------------------------------------------------------------
  // Runs that end FAILED and delivered

  lemma {:induction false} RunConcat(s: System, a: seq<Step>, b: seq<Step>)
    ensures Run(s, a + b) == Run(Run(s, a), b)
    decreases |b|
  {
    if b == [] {
      assert a + b == a;
    } else {
      var n := |b| - 1;
      RunConcat(s, a, b[..n]);
      assert a + b == (a + b[..n]) + [b[n]];
      RunOn(s, a + b[..n], b[n]);
    }
  }

  /** One row, the k-th attempt of which comes next; `delivered` as the provider has it. */
  ghost predicate AfterTries(s: System, k: nat) {
    && |s.rows| == |s.lapses| == |s.lost| == 1 && |s.workers| == k && s.delivered == [0]
    && s.rows[0].attempts == k && s.lapses[0] == 0 && s.lost[0] == k
    && s.rows[0].status == (if k < MAX_ATTEMPTS then Pending else Failed)
  }

  /** An attempt whose answer never comes, well inside its lease. */
  function Unheard(w: nat, at: int): seq<Step> { [Claim(0, at)] + [Send(w)] + [TimeOut(w)] + [Finish(w)] }

  lemma UnheardRun(s: System, w: nat, at: int)
    ensures Run(s, Unheard(w, at)) == FinishStep(TimeOutStep(SendStep(ClaimStep(s, 0, at), w), w), w)
  {
    var a: seq<Step> := [Claim(0, at)];
    assert a[..0] == [] && Run(s, a) == ClaimStep(s, 0, at);
    RunOn(s, a, Send(w));
    RunOn(s, a + [Send(w)], TimeOut(w));
    RunOn(s, a + [Send(w)] + [TimeOut(w)], Finish(w));
  }

  lemma OneMoreTry(s: System, k: nat)
    requires AfterTries(s, k) && 1 <= k < MAX_ATTEMPTS
    ensures AfterTries(Run(s, Unheard(k, s.rows[0].availableAt)), k + 1)
  {
    var at := s.rows[0].availableAt;
    UnheardRun(s, k, at);
    var claimed := ClaimStep(s, 0, at);
    assert claimed.workers[k] == Worker(0, k + 1, at, Claimed, Unsent);
    var timedOut := TimeOutStep(SendStep(claimed, k), k);
    assert timedOut.workers[k].stage == Answered(Refused(true)) && timedOut.workers[k].fence == k + 1;
  }

  /** The first attempt: accepted by the provider, but the answer never comes. */
  function FirstTry(): seq<Step> {
    [Enqueue(0)] + [Claim(0, 0)] + [Send(0)] + [Arrive(0, Accepted)] + [TimeOut(0)] + [Finish(0)]
  }

  lemma FirstTryRun()
    ensures AfterTries(Run(EMPTY, FirstTry()), 1)
  {
    var a: seq<Step> := [Enqueue(0)];
    assert a[..0] == [] && Run(EMPTY, a) == Next(EMPTY, Enqueue(0));
    RunOn(EMPTY, a, Claim(0, 0));
    RunOn(EMPTY, a + [Claim(0, 0)], Send(0));
    RunOn(EMPTY, a + [Claim(0, 0)] + [Send(0)], Arrive(0, Accepted));
    RunOn(EMPTY, a + [Claim(0, 0)] + [Send(0)] + [Arrive(0, Accepted)], TimeOut(0));
    RunOn(EMPTY, a + [Claim(0, 0)] + [Send(0)] + [Arrive(0, Accepted)] + [TimeOut(0)], Finish(0));
  }

  lemma {:induction false} Tries(k: nat) returns (steps: seq<Step>)
    requires 1 <= k <= MAX_ATTEMPTS
    ensures AfterTries(Run(EMPTY, steps), k)
  {
    if k == 1 {
      steps := FirstTry();
      FirstTryRun();
    } else {
      var before := Tries(k - 1);
      var s := Run(EMPTY, before);
      OneMoreTry(s, k - 1);
      RunConcat(EMPTY, before, Unheard(k - 1, s.rows[0].availableAt));
      steps := before + Unheard(k - 1, s.rows[0].availableAt);
    }
  }

  /** Lost answers alone suffice: six attempts time out, no lease lapses, and the first was accepted. */
  lemma FailedAfterTimeouts() returns (steps: seq<Step>)
    ensures var s := Run(EMPTY, steps);
      |s.rows| == 1 && s.rows[0].status == Failed && s.lapses == [0] && s.lost == [6] && s.delivered == [0]
  {
    steps := Tries(MAX_ATTEMPTS);
  }

  /** And so does a lapsed lease: the first worker's request arrives after the second worker has given up. */
  function LateAcceptance(): seq<Step> {
    [Enqueue(0)] + [Claim(0, 0)] + [Send(0)] + [Claim(0, LEASE_MS)] + [Send(1)]
      + [Arrive(1, Refused(false))] + [Hear(1)] + [Finish(1)] + [Arrive(0, Accepted)]
  }

  lemma FailedYetDelivered()
    ensures var s := Run(EMPTY, LateAcceptance());
      |s.rows| == 1 && s.rows[0].status == Failed && s.lapses == [1] && s.lost == [0] && s.delivered == [0]
  {
    var a: seq<Step> := [Enqueue(0)];
    assert a[..0] == [] && Run(EMPTY, a) == Next(EMPTY, Enqueue(0));
    var b := a + [Claim(0, 0)];
    var c := b + [Send(0)];
    var d := c + [Claim(0, LEASE_MS)];
    var e := d + [Send(1)];
    var f := e + [Arrive(1, Refused(false))];
    var g := f + [Hear(1)];
    var h := g + [Finish(1)];
    RunOn(EMPTY, a, Claim(0, 0));
    RunOn(EMPTY, b, Send(0));
    RunOn(EMPTY, c, Claim(0, LEASE_MS));
    RunOn(EMPTY, d, Send(1));
    RunOn(EMPTY, e, Arrive(1, Refused(false)));
    RunOn(EMPTY, f, Hear(1));
    RunOn(EMPTY, g, Finish(1));
    RunOn(EMPTY, h, Arrive(0, Accepted));
  }

  // ---------------------------------------------------------------------------
  // One worker's tick

  /** The due rows in the order they were created. */
  function DueRows(rows: seq<Row>, now: int): seq<Id> {
    if rows == [] then [] else
      var n := |rows| - 1;
      DueRows(rows[..n], now) + (if Due(rows[n], now) then [n] else [])
  }

  function Batch(ids: seq<Id>): seq<Id> { if |ids| <= BATCH then ids else ids[..BATCH] }

  /** How one send goes: a reply is heard, or the wait ends without one, the request handled by then or not. */
  datatype Sending = Replied(answer: Answer) | Silence(handled: Option<Answer>)

  /** What the worker makes of it. */
  function Heard(sending: Sending): Answer { if sending.Replied? then sending.answer else Refused(true) }

  function RequestAfter(sending: Sending): Request {
    match sending
    case Replied(answer) => Handled(answer)
    case Silence(Some(answer)) => Handled(answer)
    case Silence(None) => OnItsWay
  }

  /** The send of worker `w`, from request to answer. */
  function SendOne(s: System, w: nat, sending: Sending): System {
    var sent := SendStep(s, w);
    var handled := if RequestAfter(sending).Handled? then ArriveStep(sent, w, RequestAfter(sending).reply) else sent;
    if sending.Replied? then HearStep(handled, w) else TimeOutStep(handled, w)
  }

  /** One candidate: claimed if still due, sent, finished. */
  function DeliverOne(s: System, row: Id, now: int, sending: Sending): System {
    if row >= |s.rows| || row >= |s.lapses| || row >= |s.lost| || !Due(s.rows[row], now) then s
    else FinishStep(SendOne(ClaimStep(s, row, now), |s.workers|, sending), |s.workers|)
  }

  function DeliverAll(s: System, rows: seq<Id>, now: int, sendings: Id -> Sending): System {
    if rows == [] then s else
      var n := |rows| - 1;
      DeliverOne(DeliverAll(s, rows[..n], now, sendings), rows[n], now, sendings(rows[n]))
  }

  lemma DeliverNext(s: System, rows: seq<Id>, i: nat, now: int, sendings: Id -> Sending)
    requires i < |rows|
    ensures DeliverAll(s, rows[..i + 1], now, sendings)
      == DeliverOne(DeliverAll(s, rows[..i], now, sendings), rows[i], now, sendings(rows[i]))
  {
    assert rows[..i + 1][..i] == rows[..i];
  }

  /** The steps of one send. */
  function SendSteps(w: nat, sending: Sending): seq<Step> {
    [Send(w)] + (if RequestAfter(sending).Handled? then [Arrive(w, RequestAfter(sending).reply)] else [])
      + [if sending.Replied? then Hear(w) else TimeOut(w)]
  }

  lemma RunOnAt(s: System, steps: seq<Step>, at: System, step: Step, next: System)
    requires Run(s, steps) == at && Next(at, step) == next
    ensures Run(s, steps + [step]) == next
  {
    RunOn(s, steps, step);
  }

  lemma SendRun(s: System, steps: seq<Step>, at: System, w: nat, sending: Sending)
    requires Run(s, steps) == at
    ensures var sent := SendStep(at, w);
      var more := steps + [Send(w)]
        + if RequestAfter(sending).Handled? then [Arrive(w, RequestAfter(sending).reply)] else [];
      Run(s, more) == if RequestAfter(sending).Handled? then ArriveStep(sent, w, RequestAfter(sending).reply) else sent
  {
    var sent := SendStep(at, w);
    RunOnAt(s, steps, at, Send(w), sent);
    if RequestAfter(sending).Handled? {
      var reply := RequestAfter(sending).reply;
      RunOnAt(s, steps + [Send(w)], sent, Arrive(w, reply), ArriveStep(sent, w, reply));
    } else {
      assert steps + [Send(w)] + [] == steps + [Send(w)];
    }
  }

  lemma SendIsRun(s: System, steps: seq<Step>, at: System, w: nat, sending: Sending)
    requires Run(s, steps) == at
    ensures Run(s, steps + SendSteps(w, sending)) == SendOne(at, w, sending)
  {
    var arrival := if RequestAfter(sending).Handled? then [Arrive(w, RequestAfter(sending).reply)] else [];
    var last := if sending.Replied? then Hear(w) else TimeOut(w);
    SendRun(s, steps, at, w, sending);
    RunOnAt(s, steps + [Send(w)] + arrival, Run(s, steps + [Send(w)] + arrival), last, SendOne(at, w, sending));
    assert steps + [Send(w)] + arrival + [last] == steps + SendSteps(w, sending);
  }

  /** The steps of one candidate. */
  function DeliverSteps(s: System, row: Id, now: int, sending: Sending): seq<Step> {
    if row >= |s.rows| || row >= |s.lapses| || row >= |s.lost| || !Due(s.rows[row], now) then []
    else [Claim(row, now)] + SendSteps(|s.workers|, sending) + [Finish(|s.workers|)]
  }

  lemma DeliverIsRun(s: System, steps: seq<Step>, at: System, row: Id, now: int, sending: Sending)
    requires Run(s, steps) == at
    ensures Run(s, steps + DeliverSteps(at, row, now, sending)) == DeliverOne(at, row, now, sending)
  {
    if DeliverSteps(at, row, now, sending) == [] {
      assert steps + [] == steps;
    } else {
      ClaimAndRest(s, steps, at, row, now, |at.workers|, sending);
      assert steps + [Claim(row, now)] + SendSteps(|at.workers|, sending) + [Finish(|at.workers|)]
        == steps + DeliverSteps(at, row, now, sending);
    }
  }

  lemma ClaimAndRest(s: System, steps: seq<Step>, at: System, row: Id, now: int, w: nat, sending: Sending)
    requires Run(s, steps) == at
    ensures Run(s, steps + [Claim(row, now)] + SendSteps(w, sending) + [Finish(w)])
      == FinishStep(SendOne(ClaimStep(at, row, now), w, sending), w)
  {
    var claimed := ClaimStep(at, row, now);
    RunOnAt(s, steps, at, Claim(row, now), claimed);
    SendIsRun(s, steps + [Claim(row, now)], claimed, w, sending);
    var sent := SendOne(claimed, w, sending);
    RunOnAt(s, steps + [Claim(row, now)] + SendSteps(w, sending), sent, Finish(w), FinishStep(sent, w));
  }

  /** A tick is a run of the protocol, so everything proved of runs holds of ticks. */
  lemma {:induction false} TickIsRun(s: System, rows: seq<Id>, now: int, sendings: Id -> Sending)
    returns (steps: seq<Step>)
    ensures Run(s, steps) == DeliverAll(s, rows, now, sendings)
  {
    steps := [];
    if rows != [] {
      var n := |rows| - 1;
      var before := TickIsRun(s, rows[..n], now, sendings);
      var at := DeliverAll(s, rows[..n], now, sendings);
      DeliverIsRun(s, before, at, rows[n], now, sendings(rows[n]));
      steps := before + DeliverSteps(at, rows[n], now, sendings(rows[n]));
    }
  }

  /** What claim, send and finish of a due row write, taken together. */
  function Delivered(s: System, row: Id, now: int, sending: Sending): System
    requires row < |s.rows| && row < |s.lapses| && row < |s.lost|
  {
    var r := s.rows[row];
    System(
      s.rows[row := Finished(ClaimedRow(r, now), r.attempts + 1, now, Heard(sending))],
      s.workers + [Worker(row, r.attempts + 1, now, Ended, RequestAfter(sending))],
      if RequestAfter(sending) == Handled(Accepted) && row !in s.delivered then s.delivered + [row] else s.delivered,
      if r.status == Sending then s.lapses[row := s.lapses[row] + 1] else s.lapses,
      if sending.Replied? then s.lost else s.lost[row := s.lost[row] + 1])
  }

  lemma DeliverOneWrites(s: System, row: Id, now: int, sending: Sending)
    requires row < |s.rows| && row < |s.lapses| && row < |s.lost| && Due(s.rows[row], now)
    ensures DeliverOne(s, row, now, sending) == Delivered(s, row, now, sending)
  {
    var claimed := ClaimStep(s, row, now);
    var w := |s.workers|;
    SentOne(claimed, w, row, sending);
    assert claimed.workers[w] == Worker(row, s.rows[row].attempts + 1, now, Claimed, Unsent);
    var answered := SendOne(claimed, w, sending);
    assert answered.workers
      == s.workers + [claimed.workers[w].(stage := Answered(Heard(sending)), request := RequestAfter(sending))];
    assert FinishStep(answered, w).workers
      == s.workers + [Worker(row, s.rows[row].attempts + 1, now, Ended, RequestAfter(sending))];
  }

  lemma SentOne(s: System, w: nat, row: Id, sending: Sending)
    requires w < |s.workers| && s.workers[w].stage == Claimed && s.workers[w].request == Unsent &&
      s.workers[w].row == row < |s.lost|
    ensures SendOne(s, w, sending) == s.(
      workers := s.workers[w := s.workers[w].(stage := Answered(Heard(sending)), request := RequestAfter(sending))],
      delivered := if RequestAfter(sending) == Handled(Accepted) && row !in s.delivered then s.delivered + [row]
        else s.delivered,
      lost := if sending.Replied? then s.lost else s.lost[row := s.lost[row] + 1])
  {
    var sent := SendStep(s, w);
    var handled := if RequestAfter(sending).Handled? then ArriveStep(sent, w, RequestAfter(sending).reply) else sent;
    assert sent.workers == s.workers[w := s.workers[w].(request := OnItsWay)];
    assert handled.workers == s.workers[w := s.workers[w].(request := RequestAfter(sending))];
  }

  /**
   * Undisturbed, a worker leaves a due row SENT, FAILED, or waiting for a later time, as the answer it
   * heard says, a lost answer counting as a retryable refusal: never due again now.
   */
  lemma DeliverOneSettles(s: System, row: Id, now: int, sending: Sending)
    requires Inv(s) && row < |s.rows| && Due(s.rows[row], now)
    ensures var t := DeliverOne(s, row, now, sending);
      var r := t.rows[row];
      && !Due(r, now) && r.attempts == s.rows[row].attempts + 1
      && (r.status == Sent <==> sending == Replied(Accepted))
      && (r.status == Pending <==> Heard(sending) == Refused(true) && r.attempts < 6)
      && (r.status == Pending ==> r.availableAt == now + BackoffMs(r.attempts))
      && (r.status == Sent ==> row in t.delivered)
  {
    DeliverOneWrites(s, row, now, sending);
    BackoffBounds(s.rows[row].attempts + 1, s.rows[row].attempts + 1);
    if sending == Replied(Accepted) && row !in s.delivered {
      assert DeliverOne(s, row, now, sending).delivered[|s.delivered|] == row;
    }
  }

  // ---------------------------------------------------------------------------
  // What a tick picks, and how it leaves it

  /** Waiting and due, or sent for under a lease that has run out. */
  predicate Ripe(r: Row, now: int) {
    || (r.status == Pending && r.availableAt <= now)
    || (r.status == Sending && r.leaseUntil <= now)
  }

  /** How many of the rows are ripe. */
  function RipeCount(rows: seq<Row>, now: int): nat {
    if rows == [] then 0 else
      var n := |rows| - 1;
      RipeCount(rows[..n], now) + (if Ripe(rows[n], now) then 1 else 0)
  }

  /** The k-th row picked is ripe, and k ripe rows stand before it. */
  lemma {:induction false} PickedAt(rows: seq<Row>, now: int, k: nat)
    requires k < |DueRows(rows, now)|
    ensures var id := DueRows(rows, now)[k]; id < |rows| && Ripe(rows[id], now) && RipeCount(rows[..id], now) == k
  {
    var n := |rows| - 1;
    CountsRipe(rows[..n], now);
    if k < |DueRows(rows[..n], now)| {
      PickedAt(rows[..n], now, k);
      assert rows[..n][..DueRows(rows, now)[k]] == rows[..DueRows(rows, now)[k]];
    }
  }

  lemma {:induction false} CountsRipe(rows: seq<Row>, now: int)
    ensures |DueRows(rows, now)| == RipeCount(rows, now)
  {
    if rows != [] { CountsRipe(rows[..|rows| - 1], now); }
  }

  lemma {:induction false} RipeIsPicked(rows: seq<Row>, now: int, id: Id)
    requires id < |rows| && Ripe(rows[id], now)
    ensures RipeCount(rows[..id], now) < |DueRows(rows, now)|
    ensures DueRows(rows, now)[RipeCount(rows[..id], now)] == id
  {
    var n := |rows| - 1;
    if id < n {
      RipeIsPicked(rows[..n], now, id);
      assert rows[..n][..id] == rows[..id];
    } else {
      CountsRipe(rows[..n], now);
    }
  }

  /** A row is in the batch exactly when it is ripe and fewer than five ripe rows were created before it. */
  lemma BatchMeans(rows: seq<Row>, now: int, id: Id)
    ensures id in Batch(DueRows(rows, now)) <==>
      id < |rows| && Ripe(rows[id], now) && RipeCount(rows[..id], now) < 5
  {
    var due, batch := DueRows(rows, now), Batch(DueRows(rows, now));
    if id in batch {
      var k :| 0 <= k < |batch| && batch[k] == id;
      assert due[k] == id;
      PickedAt(rows, now, k);
    }
    if id < |rows| && Ripe(rows[id], now) && RipeCount(rows[..id], now) < 5 {
      RipeIsPicked(rows, now, id);
      assert batch[RipeCount(rows[..id], now)] == id;
    }
  }

  /** Each once. */
  lemma BatchDistinct(rows: seq<Row>, now: int)
    ensures forall i, j :: 0 <= i < j < |Batch(DueRows(rows, now))| ==>
      Batch(DueRows(rows, now))[i] != Batch(DueRows(rows, now))[j]
    ensures |Batch(DueRows(rows, now))| <= 5
  {
    var due, batch := DueRows(rows, now), Batch(DueRows(rows, now));
    forall i, j | 0 <= i < j < |batch| ensures batch[i] != batch[j] {
      assert batch[i] == due[i] && batch[j] == due[j];
      PickedAt(rows, now, i);
      PickedAt(rows, now, j);
    }
  }

  /**
   * How an attempt leaves its row: SENT when the worker heard that it was accepted; waiting again, one to
   * sixteen minutes, after a retryable refusal or a lost answer, unless it was the sixth; else FAILED.
   */
  ghost predicate Settled(before: Row, after: Row, now: int, sending: Sending) {
    var retry := sending == Replied(Refused(true)) || sending.Silence?;
    && after.attempts == before.attempts + 1
    && (after.status == Sent <==> sending == Replied(Accepted))
    && (after.status == Pending <==> retry && before.attempts <= 4)
    && (after.status == Failed <==> sending == Replied(Refused(false)) || (retry && before.attempts >= 5))
    && (after.status == Pending ==> after.availableAt == now + 60_000 * [1, 2, 4, 8, 16][before.attempts])
  }

  lemma WaitsDoubled(attempt: nat)
    requires attempt <= 4
    ensures BackoffMs(attempt + 1) == 60_000 * [1, 2, 4, 8, 16][attempt]
  {
    assert Pow2(0) == 1 && Pow2(1) == 2 && Pow2(2) == 4 && Pow2(3) == 8 && Pow2(4) == 16;
  }

  lemma OneSettled(s: System, row: Id, now: int, sending: Sending)
    requires row < |s.rows| == |s.lapses| == |s.lost| && Ripe(s.rows[row], now)
    ensures var t := DeliverOne(s, row, now, sending);
      && |t.rows| == |t.lapses| == |t.lost| == |s.rows|
      && Settled(s.rows[row], t.rows[row], now, sending)
      && (t.rows[row].status == Sent ==> row in t.delivered)
      && (forall other :: 0 <= other < |s.rows| && other != row ==> t.rows[other] == s.rows[other])
      && s.delivered <= t.delivered
  {
    DeliverOneWrites(s, row, now, sending);
    var t := DeliverOne(s, row, now, sending);
    if s.rows[row].attempts <= 4 { WaitsDoubled(s.rows[row].attempts); }
    if sending == Replied(Accepted) && row !in s.delivered { assert t.delivered[|s.delivered|] == row; }
  }

  /** The first `k` rows of the batch are settled, and no other row is touched. */
  ghost predicate SettledUpTo(s: System, t: System, ids: seq<Id>, k: nat, now: int, sendings: Id -> Sending) {
    && |t.rows| == |t.lapses| == |t.lost| == |s.rows| && k <= |ids|
    && (forall i :: 0 <= i < k ==>
          && ids[i] < |s.rows|
          && Settled(s.rows[ids[i]], t.rows[ids[i]], now, sendings(ids[i]))
          && (t.rows[ids[i]].status == Sent ==> ids[i] in t.delivered))
    && (forall row :: 0 <= row < |s.rows| && row !in ids[..k] ==> t.rows[row] == s.rows[row])
  }

  lemma {:induction false} AllSettled(s: System, ids: seq<Id>, k: nat, now: int, sendings: Id -> Sending)
    requires |s.rows| == |s.lapses| == |s.lost| && k <= |ids|
    requires forall i :: 0 <= i < |ids| ==> ids[i] < |s.rows| && Ripe(s.rows[ids[i]], now)
    requires forall i, j :: 0 <= i < j < |ids| ==> ids[i] != ids[j]
    ensures SettledUpTo(s, DeliverAll(s, ids[..k], now, sendings), ids, k, now, sendings)
  {
    if k > 0 {
      AllSettled(s, ids, k - 1, now, sendings);
      DeliverNext(s, ids, k - 1, now, sendings);
      var before := DeliverAll(s, ids[..k - 1], now, sendings);
      assert ids[k - 1] !in ids[..k - 1];
      SettledOneMore(s, before, ids, k, now, sendings);
    }
  }

  lemma SettledOneMore(s: System, t: System, ids: seq<Id>, k: nat, now: int, sendings: Id -> Sending)
    requires 0 < k <= |ids| && SettledUpTo(s, t, ids, k - 1, now, sendings)
    requires ids[k - 1] !in ids[..k - 1] && ids[k - 1] < |s.rows| && Ripe(s.rows[ids[k - 1]], now)
    ensures SettledUpTo(s, DeliverOne(t, ids[k - 1], now, sendings(ids[k - 1])), ids, k, now, sendings)
  {
    OneSettled(t, ids[k - 1], now, sendings(ids[k - 1]));
    OthersSettled(s, t, DeliverOne(t, ids[k - 1], now, sendings(ids[k - 1])), ids, k, now, sendings);
  }

  lemma OthersSettled(s: System, t: System, after: System, ids: seq<Id>, k: nat, now: int, sendings: Id -> Sending)
    requires 0 < k <= |ids| && SettledUpTo(s, t, ids, k - 1, now, sendings)
    requires ids[k - 1] !in ids[..k - 1] && ids[k - 1] < |s.rows|
    requires |after.rows| == |after.lapses| == |after.lost| == |t.rows| && t.delivered <= after.delivered
    requires Settled(t.rows[ids[k - 1]], after.rows[ids[k - 1]], now, sendings(ids[k - 1]))
    requires after.rows[ids[k - 1]].status == Sent ==> ids[k - 1] in after.delivered
    requires forall other :: 0 <= other < |t.rows| && other != ids[k - 1] ==> after.rows[other] == t.rows[other]
    ensures SettledUpTo(s, after, ids, k, now, sendings)
  {
    assert ids[..k] == ids[..k - 1] + [ids[k - 1]];
    forall i | 0 <= i < k - 1 ensures after.rows[ids[i]] == t.rows[ids[i]] { assert ids[i] in ids[..k - 1]; }
  }

  /**
   * One undisturbed tick: the first five ripe rows are each settled by how their sends went, the rows
   * found SENT have been accepted, and every other row is left alone.
   */
  lemma TickSettles(s: System, now: int, sendings: Id -> Sending, row: Id)
    requires Inv(s) && row < |s.rows|
    ensures var t := DeliverAll(s, Batch(DueRows(s.rows, now)), now, sendings);
      && |t.rows| == |s.rows|
      && if Ripe(s.rows[row], now) && RipeCount(s.rows[..row], now) < 5
         then Settled(s.rows[row], t.rows[row], now, sendings(row)) &&
           (t.rows[row].status == Sent ==> row in t.delivered)
         else t.rows[row] == s.rows[row]
  {
    var ids := Batch(DueRows(s.rows, now));
    BatchRipe(s.rows, ids, now);
    assert ids[..|ids|] == ids;
    AllSettled(s, ids, |ids|, now, sendings);
    BatchMeans(s.rows, now, row);
  }

  /** How many of the ids have come to a status. */
  function Reached(rows: seq<Row>, ids: seq<Id>, status: Status): nat {
    if ids == [] then 0 else
      var n := |ids| - 1;
      Reached(rows, ids[..n], status) + (if ids[n] < |rows| && rows[ids[n]].status == status then 1 else 0)
  }

  lemma {:induction false} ReachedKept(rows: seq<Row>, rows': seq<Row>, ids: seq<Id>, status: Status)
    requires |rows'| == |rows| && forall i :: 0 <= i < |ids| && ids[i] < |rows| ==> rows'[ids[i]] == rows[ids[i]]
    ensures Reached(rows', ids, status) == Reached(rows, ids, status)
  {
    if ids != [] { ReachedKept(rows, rows', ids[..|ids| - 1], status); }
  }

  lemma BatchRipe(rows: seq<Row>, ids: seq<Id>, now: int)
    requires ids == Batch(DueRows(rows, now))
    ensures forall i :: 0 <= i < |ids| ==> ids[i] < |rows| && Ripe(rows[ids[i]], now)
    ensures forall i, j :: 0 <= i < j < |ids| ==> ids[i] != ids[j]
  {
    BatchDistinct(rows, now);
    forall i | 0 <= i < |ids| ensures ids[i] < |rows| && Ripe(rows[ids[i]], now) { BatchMeans(rows, now, ids[i]); }
  }

  /** The counters after one more row. */
  lemma TickStep(s: System, t: System, ids: seq<Id>, i: nat, now: int, sendings: Id -> Sending)
    requires i < |ids| && SettledUpTo(s, t, ids, i, now, sendings)
    requires forall k :: 0 <= k < |ids| ==> ids[k] < |s.rows| && Ripe(s.rows[ids[k]], now)
    requires forall j, k :: 0 <= j < k < |ids| ==> ids[j] != ids[k]
    ensures ids[i] < |t.rows| == |t.lapses| == |t.lost| && Due(t.rows[ids[i]], now)
    ensures var u := DeliverOne(t, ids[i], now, sendings(ids[i]));
      && |u.rows| == |t.rows| && u.rows[ids[i]].status in {Sent, Pending, Failed}
      && forall status :: Reached(u.rows, ids[..i + 1], status)
           == Reached(t.rows, ids[..i], status) + if u.rows[ids[i]].status == status then 1 else 0
  {
    assert ids[i] !in ids[..i];
    OneSettled(t, ids[i], now, sendings(ids[i]));
    var u := DeliverOne(t, ids[i], now, sendings(ids[i]));
    assert ids[..i + 1][..i] == ids[..i];
    forall status
      ensures Reached(u.rows, ids[..i + 1], status)
        == Reached(t.rows, ids[..i], status) + if u.rows[ids[i]].status == status then 1 else 0
    {
      ReachedKept(t.rows, u.rows, ids[..i], status);
    }
  }

  /** The outbox as a worker process sees it. */
  class Outbox {
    var rows: seq<Row>
    var workers: seq<Worker>
    var delivered: seq<Id>
    var lapses: seq<nat>
    var lost: seq<nat>

    ghost function State(): System
      reads this
    {
      System(rows, workers, delivered, lapses, lost)
    }

    constructor ()
      ensures State() == EMPTY
    {
      rows, workers, delivered, lapses, lost := [], [], [], [], [];
    }

    method Candidates(now: int) returns (ids: seq<Id>)
      ensures ids == Batch(DueRows(rows, now))
    {
      ids := [];
      var i := 0;
      while i < |rows| && |ids| < BATCH
        invariant 0 <= i <= |rows| && |ids| <= BATCH
        invariant ids == DueRows(rows[..i], now)
      {
        assert rows[..i + 1][..i] == rows[..i];
        if Due(rows[i], now) { ids := ids + [i]; }
        i := i + 1;
      }
      DueRowsPrefix(rows, i, now);
    }

    /** One tick: at most five rows, each claimed, sent and finished; the counters tell where they came to. */
    method Deliver(now: int, sendings: Id -> Sending) returns (claimed: nat, sent: nat, retrying: nat, failed: nat)
      requires Inv(State())
      modifies this
      ensures var ids := Batch(DueRows(old(rows), now));
        && State() == DeliverAll(old(State()), ids, now, sendings)
        && claimed == |ids| && sent == Reached(rows, ids, Sent)
        && retrying == Reached(rows, ids, Pending) && failed == Reached(rows, ids, Failed)
    {
      var ids := Candidates(now);
      claimed, sent, retrying, failed := 0, 0, 0, 0;
      ghost var start, reached := State(), State();
      BatchRipe(start.rows, ids, now);
      var i := 0;
      while i < |ids|
        invariant 0 <= i <= |ids|
        invariant State() == reached
        invariant reached == DeliverAll(start, ids[..i], now, sendings)
        invariant claimed == i && sent == Reached(rows, ids[..i], Sent)
        invariant retrying == Reached(rows, ids[..i], Pending) && failed == Reached(rows, ids[..i], Failed)
      {
        AllSettled(start, ids, i, now, sendings);
        TickStep(start, reached, ids, i, now, sendings);
        DeliverNext(start, ids, i, now, sendings);
        reached := DeliverOne(reached, ids[i], now, sendings(ids[i]));
        var outcome := DeliverRow(ids[i], now, sendings(ids[i]));
        claimed := claimed + 1;
        match outcome {
          case Some(Sent) => sent := sent + 1;
          case Some(Pending) => retrying := retrying + 1;
          case Some(Failed) => failed := failed + 1;
          case _ =>
        }
        i := i + 1;
      }
      assert ids[..i] == ids;
    }

    /** The send: the provider may accept the row, and the answer may be lost. */
    method SendEmail(id: Id, sending: Sending) returns (answer: Answer)
      requires id < |lost|
      modifies this`delivered, this`lost
      ensures answer == Heard(sending)
      ensures delivered == if RequestAfter(sending) == Handled(Accepted) && id !in old(delivered)
                           then old(delivered) + [id] else old(delivered)
      ensures lost == if sending.Replied? then old(lost) else old(lost)[id := old(lost)[id] + 1]
    {
      if RequestAfter(sending) == Handled(Accepted) && id !in delivered { delivered := delivered + [id]; }
      if sending.Silence? {
        lost := lost[id := lost[id] + 1];
        return Refused(true);
      }
      return sending.answer;
    }

    /** Claim a due row, send its email, and finish it while it is still ours. */
    method ClaimAndSend(id: Id, now: int, sending: Sending)
      requires id < |rows| && id < |lapses| && id < |lost|
      modifies this
      ensures State() == Delivered(old(State()), id, now, sending)
    {
      ghost var before := rows;
      var attempts, claimed := rows[id].attempts + 1, ClaimedRow(rows[id], now);
      if rows[id].status == Sending { lapses := lapses[id := lapses[id] + 1]; }
      rows, workers := rows[id := claimed], workers + [Worker(id, attempts, now, Ended, RequestAfter(sending))];
      var answer := SendEmail(id, sending);
      if rows[id].status == Sending && rows[id].attempts == attempts {
        var finished := if answer == Accepted then claimed.(status := Sent)
          else if answer.retryable && attempts < MAX_ATTEMPTS
          then claimed.(status := Pending, availableAt := now + BackoffMs(attempts))
          else claimed.(status := Failed);
        rows := rows[id := finished];
        assert finished == Finished(claimed, attempts, now, answer) && rows == before[id := finished];
      }
    }

    /** The loop body: nothing when another worker won the row. */
    method DeliverRow(id: Id, now: int, sending: Sending) returns (outcome: Option<Status>)
      modifies this
      ensures State() == DeliverOne(old(State()), id, now, sending)
      ensures id < |old(rows)| == |old(lapses)| == |old(lost)| && Due(old(rows)[id], now) ==>
        id < |rows| && outcome == Some(rows[id].status)
    {
      if id >= |rows| || id >= |lapses| || id >= |lost| || !Due(rows[id], now) { return None; }
      DeliverOneWrites(State(), id, now, sending);
      ClaimAndSend(id, now, sending);
      return Some(rows[id].status);
    }
  }

  /** Once five due rows are found, or the rows run out, the batch is complete. */
  lemma {:induction false} DueRowsPrefix(rows: seq<Row>, i: nat, now: int)
    requires i <= |rows| && (i == |rows| || |DueRows(rows[..i], now)| >= BATCH)
    ensures DueRows(rows[..i], now) <= DueRows(rows, now)
    ensures |DueRows(rows[..i], now)| <= BATCH ==> Batch(DueRows(rows, now)) == DueRows(rows[..i], now)
  {
    if i < |rows| {
      var n := |rows| - 1;
      assert rows[..n][..i] == rows[..i];
      DueRowsPrefix(rows[..n], i, now);
    } else {
      assert rows[..i] == rows;
    }
  }

  // ---------------------------------------------------------------------------
  // Backoff

  lemma {:induction false} Pow2Monotone(m: nat, n: nat)
    requires m <= n
    ensures Pow2(m) <= Pow2(n)
  {
    if m < n { Pow2Monotone(m, n - 1); }
  }

  /** Waits never shrink from one attempt to the next and stay between one and thirty minutes. */
  lemma BackoffBounds(a: nat, b: nat)
    requires a <= b
    ensures 60_000 <= BackoffMs(a) <= BackoffMs(b) <= 1_800_000
  {
    var m, n := if a >= 1 then a - 1 else 0, if b >= 1 then b - 1 else 0;
    Pow2Monotone(0, m);
    Pow2Monotone(m, n);
  }

  /** One minute, doubled by every attempt after the first, and thirty minutes from the sixth on. */
  lemma BackoffExact(attempt: nat)
    ensures attempt <= 1 ==> BackoffMs(attempt) == 60_000
    ensures 1 <= attempt <= 4 ==> BackoffMs(attempt + 1) == 2 * BackoffMs(attempt)
    ensures attempt >= 6 ==> BackoffMs(attempt) == 1_800_000
  {
    assert Pow2(0) == 1 && Pow2(1) == 2 && Pow2(2) == 4 && Pow2(3) == 8 && Pow2(4) == 16 && Pow2(5) == 32;
    if attempt >= 6 { Pow2Monotone(5, attempt - 1); }
  }

  /** A retry happens before the sixth attempt only, so the wait doubles each time and the cap is never reached. */
  lemma RetriesDouble(attempt: nat)
    requires 1 <= attempt < 6
    ensures BackoffMs(attempt) == 60_000 * Pow2(attempt - 1) < 1_800_000
    ensures attempt + 1 < 6 ==> BackoffMs(attempt + 1) == 2 * BackoffMs(attempt)
  {
    Pow2Monotone(attempt - 1, 4);
    assert Pow2(4) == 16;
    if attempt + 1 < 6 { Pow2Monotone(attempt, 4); }
  }
}
