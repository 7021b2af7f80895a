/**
 * Allocation at the level of row locks. A transaction reads its candidates without locking, then
 * locks the balance rows one by one, sums the reservations it can see, and inserts rows that
 * others see only after it commits. Any number of allocations interleave with each other, with
 * cancellations, and with postings, which lock the same balance rows: those of held rows, and those
 * of other modules or of rows already released, which take stock that reservations may count on.
 */
module AllocationLocks {
  import opened Common
  import opened Fefo
  import O = Orders

  type TxId = nat

  datatype RowState = Held | Posted | Released | Consumed

  /** A committed allocation row; Posted is an ACTIVE row whose stock has already left. */
  datatype Row = Row(key: Key, quantity: nat, state: RowState)

  datatype Phase =
    | Idle
    | Locking(candidates: seq<Key>, need: nat, toLock: seq<Key>, seen: map<Key, int>)
    | Picking(candidates: seq<Key>, need: nat, available: seq<int>)

  /** An open transaction: where it is, and the rows it has inserted but not committed. */
  datatype Tx = Tx(phase: Phase, pending: seq<Portion>)

  /** `drained` is what has left each balance row for something else than its held rows. */
  datatype State = State(onHand: map<Key, int>, rows: seq<Row>, owner: map<Key, TxId>, txs: map<TxId, Tx>,
                         drained: map<Key, nat>)

  datatype Step =
    | Begin(t: TxId)
    | ReadCandidates(t: TxId, candidates: seq<Key>, need: nat, lockOrder: seq<Key>)
    | LockNext(t: TxId)
    | SumReservations(t: TxId)
    | InsertPortions(t: TxId)
    | CommitTx(t: TxId)
    | RollbackTx(t: TxId)
    | CancelRow(row: nat)
    | PostRow(row: nat)
    | ConsumeRow(row: nat)
    | Receive(key: Key, quantity: nat)
    | Withdraw(key: Key, quantity: nat)

  // ---------------------------------------------------------------------------
  // Sums

  /** ACTIVE rows of one key, posted or not: what the reservation query sums. */
  function ActiveSum(rows: seq<Row>, key: Key): nat {
    if rows == [] then 0 else
      var n := |rows| - 1;
      ActiveSum(rows[..n], key) +
        (if rows[n].key == key && rows[n].state in {Held, Posted} then rows[n].quantity else 0)
  }

  /** ACTIVE rows of one key whose stock is still on hand. */
  function HeldSum(rows: seq<Row>, key: Key): nat {
    if rows == [] then 0 else
      var n := |rows| - 1;
      HeldSum(rows[..n], key) + (if rows[n].key == key && rows[n].state == Held then rows[n].quantity else 0)
  }

  function RowsOf(portions: seq<Portion>): (r: seq<Row>)
    ensures |r| == |portions|
  {
    seq(|portions|, i requires 0 <= i < |portions| => Row(portions[i].key, portions[i].quantity, Held))
  }

  // ---------------------------------------------------------------------------
  // Steps; a step that is not enabled leaves the state as it is

  function Release(s: State, t: TxId): map<Key, TxId> {
    map k | k in s.owner && s.owner[k] != t :: s.owner[k]
  }

  function Close(s: State, t: TxId): State {
    s.(owner := Release(s, t), txs := s.txs - {t})
  }

  function SetTx(s: State, t: TxId, tx: Tx): State { s.(txs := s.txs[t := tx]) }

  /** The locks asked for are exactly the candidates' balance rows, in whatever order they sort. */
  predicate SameKeys(a: seq<Key>, b: seq<Key>) {
    (forall k :: k in a ==> k in b) && (forall k :: k in b ==> k in a)
  }

  predicate Free(s: State, key: Key) { key !in s.owner }

  function LockStep(s: State, t: TxId): State {
    if t !in s.txs || !s.txs[t].phase.Locking? || s.txs[t].phase.toLock == [] then s
    else
      var p := s.txs[t].phase;
      var key := p.toLock[0];
      if key in s.owner && s.owner[key] != t then s  // waits for the holder
      else
        SetTx(s.(owner := s.owner[key := t]), t,
              s.txs[t].(phase := p.(toLock := p.toLock[1..], seen := p.seen[key := Lookup(s.onHand, key)])))
  }

  function SumStep(s: State, t: TxId): State {
    if t !in s.txs || !s.txs[t].phase.Locking? || s.txs[t].phase.toLock != [] then s
    else
      var tx := s.txs[t];
      var p := tx.phase;
      var available := seq(|p.candidates|, i requires 0 <= i < |p.candidates| =>
        Lookup(p.seen, p.candidates[i]) - (ActiveSum(s.rows, p.candidates[i]) + DrawnAt(tx.pending, p.candidates[i])));
      SetTx(s, t, tx.(phase := Picking(p.candidates, p.need, available)))
  }

  function InsertStep(s: State, t: TxId): State {
    if t !in s.txs || !s.txs[t].phase.Picking? || |s.txs[t].phase.candidates| != |s.txs[t].phase.available| then s
    else
      var tx := s.txs[t];
      var picked := Select(true, tx.phase.candidates, tx.phase.available, tx.phase.need);
      if picked.Err? then Close(s, t) else SetTx(s, t, Tx(Idle, tx.pending + picked.value))
  }

  function SetRow(s: State, row: nat, state: RowState): State
    requires row < |s.rows|
  {
    s.(rows := s.rows[row := s.rows[row].(state := state)])
  }

  function Next(s: State, step: Step): State {
    match step
    case Begin(t) => if t in s.txs then s else SetTx(s, t, Tx(Idle, []))
    case ReadCandidates(t, candidates, need, lockOrder) =>
      if t !in s.txs || !s.txs[t].phase.Idle? || !Distinct(candidates) || !SameKeys(candidates, lockOrder) then s
      else SetTx(s, t, s.txs[t].(phase := Locking(candidates, need, lockOrder, map[])))
    case LockNext(t) => LockStep(s, t)
    case SumReservations(t) => SumStep(s, t)
    case InsertPortions(t) => InsertStep(s, t)
    case CommitTx(t) =>
      if t !in s.txs || !s.txs[t].phase.Idle? then s
      else Close(s.(rows := s.rows + RowsOf(s.txs[t].pending)), t)
    case RollbackTx(t) => if t in s.txs then Close(s, t) else s
    case CancelRow(row) => if row < |s.rows| && s.rows[row].state == Held then SetRow(s, row, Released) else s
    case PostRow(row) =>
      if row < |s.rows| && s.rows[row].state == Held && Free(s, s.rows[row].key) &&
        s.rows[row].quantity <= Lookup(s.onHand, s.rows[row].key)
      then SetRow(s.(onHand := s.onHand[s.rows[row].key := Lookup(s.onHand, s.rows[row].key) - s.rows[row].quantity]),
        row, Posted)
      else s
    case ConsumeRow(row) => if row < |s.rows| && s.rows[row].state == Posted then SetRow(s, row, Consumed) else s
    case Receive(key, quantity) =>
      if Free(s, key) then s.(onHand := s.onHand[key := Lookup(s.onHand, key) + quantity]) else s
    case Withdraw(key, quantity) => WithdrawStep(s, key, quantity)
  }

  function Drained(s: State, key: Key): nat { if key in s.drained then s.drained[key] else 0 }

  /** A posting that consumes no held row: it looks at the balance, not at who has reserved it. */
  function WithdrawStep(s: State, key: Key, quantity: nat): State {
    if Free(s, key) && quantity <= Lookup(s.onHand, key)
    then s.(onHand := s.onHand[key := Lookup(s.onHand, key) - quantity],
      drained := s.drained[key := Drained(s, key) + quantity])
    else s
  }

  function Run(s: State, steps: seq<Step>): State {
    if steps == [] then s else Next(Run(s, steps[..|steps| - 1]), steps[|steps| - 1])
  }

  function Start(onHand: map<Key, int>): State { State(onHand, [], map[], map[], map[]) }

  // ---------------------------------------------------------------------------
  // Invariant

  /** The uncommitted reservations against a key: they belong to the holder of its lock. */
  function PendingAt(s: State, key: Key): nat {
    if key in s.owner && s.owner[key] in s.txs then DrawnAt(s.txs[s.owner[key]].pending, key) else 0
  }

  predicate Owns(s: State, t: TxId, key: Key) { key in s.owner && s.owner[key] == t }

  /** Committed and uncommitted reservations of a key whose stock has not left for them. */
  function Reserved(s: State, key: Key): nat { HeldSum(s.rows, key) + PendingAt(s, key) }

  /** Every reservation of a key is on hand, or would be but for what was drained. */
  ghost predicate KeyOk(s: State, key: Key) {
    Reserved(s, key) <= Lookup(s.onHand, key) + Drained(s, key)
  }

  /** A transaction inserts only under locks it holds, and what it has read is still a safe bound. */
  ghost predicate TxOk(s: State, t: TxId)
    requires t in s.txs
  {
    var tx := s.txs[t];
    && (forall key :: DrawnAt(tx.pending, key) > 0 ==> Owns(s, t, key))
    && (match tx.phase
        case Idle => true
        case Locking(candidates, need, toLock, seen) =>
          && Distinct(candidates)
          && (forall k :: k in candidates ==> k in seen || k in toLock)
          && (forall k :: k in seen ==> Owns(s, t, k) && seen[k] == Lookup(s.onHand, k))
        case Picking(candidates, need, available) =>
          && Distinct(candidates) && |available| == |candidates|
          && (forall i :: 0 <= i < |candidates| ==> Owns(s, t, candidates[i]))
          && (forall i :: 0 <= i < |candidates| ==>
                available[i] + HeldSum(s.rows, candidates[i]) + DrawnAt(tx.pending, candidates[i]) <=
                  Lookup(s.onHand, candidates[i])))
  }

  ghost predicate LockInv(s: State) {
    && (forall key :: KeyOk(s, key))
    && (forall t :: t in s.txs ==> TxOk(s, t))
    && (forall key :: key in s.owner ==> s.owner[key] in s.txs)
  }

  // ---------------------------------------------------------------------------
  // Effect of row changes on the sums

  lemma {:induction false} HeldConcat(a: seq<Row>, b: seq<Row>, key: Key)
    ensures HeldSum(a + b, key) == HeldSum(a, key) + HeldSum(b, key)
  {
    if b == [] {
      assert a + b == a;
    } else {
      var n := |b| - 1;
      HeldConcat(a, b[..n], key);
      assert (a + b)[..|a| + n] == a + b[..n];
    }
  }

  lemma {:induction false} HeldOfPortions(portions: seq<Portion>, key: Key)
    ensures HeldSum(RowsOf(portions), key) == DrawnAt(portions, key)
  {
    if portions != [] {
      var n := |portions| - 1;
      HeldOfPortions(portions[..n], key);
      assert RowsOf(portions)[..n] == RowsOf(portions[..n]);
    }
  }

  lemma {:induction false} HeldAfterSet(rows: seq<Row>, row: nat, state: RowState, key: Key)
    requires row < |rows| && state != Held
    ensures HeldSum(rows[row := rows[row].(state := state)], key)
      == HeldSum(rows, key) - (if rows[row].key == key && rows[row].state == Held then rows[row].quantity else 0)
  {
    var n := |rows| - 1;
    var changed := rows[row := rows[row].(state := state)];
    if row < n {
      HeldAfterSet(rows[..n], row, state, key);
      assert changed[..n] == rows[..n][row := rows[row].(state := state)];
    } else {
      assert changed[..n] == rows[..n];
    }
  }

  lemma {:induction false} HeldWithinActive(rows: seq<Row>, key: Key)
    ensures HeldSum(rows, key) <= ActiveSum(rows, key)
  {
    if rows != [] { HeldWithinActive(rows[..|rows| - 1], key); }
  }

  // ---------------------------------------------------------------------------
  // Each step keeps the invariant

  /** Another transaction's state of mind survives whatever only lowers held sums on its keys. */
  lemma TxKept(s: State, s': State, t: TxId)
    requires t in s.txs && t in s'.txs && s'.txs[t] == s.txs[t] && TxOk(s, t)
    requires forall k :: Owns(s, t, k) ==>
      Owns(s', t, k) && Lookup(s'.onHand, k) == Lookup(s.onHand, k) && HeldSum(s'.rows, k) <= HeldSum(s.rows, k)
    ensures TxOk(s', t)
  {
    var tx := s.txs[t];
    if tx.phase.Picking? {
      forall i | 0 <= i < |tx.phase.candidates|
        ensures Owns(s', t, tx.phase.candidates[i])
        ensures tx.phase.available[i] + HeldSum(s'.rows, tx.phase.candidates[i]) +
          DrawnAt(tx.pending, tx.phase.candidates[i])
                <= Lookup(s'.onHand, tx.phase.candidates[i])
      {
        assert Owns(s, t, tx.phase.candidates[i]);
      }
    }
  }

  lemma CloseKeeps(s: State, t: TxId, rows: seq<Row>)
    requires LockInv(s) && t in s.txs
    requires forall k ::
      HeldSum(rows, k) <= HeldSum(s.rows, k) + (if Owns(s, t, k) then DrawnAt(s.txs[t].pending, k) else 0)
    ensures LockInv(Close(s.(rows := rows), t))
  {
    var s' := Close(s.(rows := rows), t);
    forall k ensures KeyOk(s', k) { assert KeyOk(s, k); }
    forall u | u in s'.txs ensures TxOk(s', u) {
      assert TxOk(s, u);
      TxKept(s, s', u);
    }
  }

  lemma CommitKeeps(s: State, t: TxId)
    requires LockInv(s)
    ensures LockInv(Next(s, CommitTx(t)))
  {
    if t in s.txs && s.txs[t].phase.Idle? {
      var pending := s.txs[t].pending;
      var rows := s.rows + RowsOf(pending);
      assert TxOk(s, t);
      forall k ensures HeldSum(rows, k) <= HeldSum(s.rows, k) + (if Owns(s, t, k) then DrawnAt(pending, k) else 0) {
        HeldConcat(s.rows, RowsOf(pending), k);
        HeldOfPortions(pending, k);
      }
      CloseKeeps(s, t, rows);
    }
  }

  /** A transaction changes its own phase, and perhaps takes one more free lock. */
  lemma OwnStep(s: State, t: TxId, tx: Tx, owner: map<Key, TxId>)
    requires LockInv(s)
    requires t in s.txs || tx == Tx(Idle, [])
    requires t in s.txs ==> tx.pending == s.txs[t].pending
    requires forall k :: k in s.owner ==> k in owner && owner[k] == s.owner[k]
    requires forall k :: k in owner && k !in s.owner ==> owner[k] == t && t in s.txs
    requires TxOk(s.(owner := owner, txs := s.txs[t := tx]), t)
    ensures LockInv(s.(owner := owner, txs := s.txs[t := tx]))
  {
    var s' := s.(owner := owner, txs := s.txs[t := tx]);
    forall k ensures KeyOk(s', k) {
      assert KeyOk(s, k);
      if k in owner && k !in s.owner {
        assert TxOk(s, t);
        assert DrawnAt(tx.pending, k) == 0;
      }
    }
    forall u | u in s'.txs ensures TxOk(s', u) {
      if u != t {
        assert TxOk(s, u);
        TxKept(s, s', u);
      }
    }
  }

  lemma LockKeeps(s: State, t: TxId)
    requires LockInv(s)
    ensures LockInv(LockStep(s, t))
  {
    if LockStep(s, t) != s {
      var p := s.txs[t].phase;
      var key := p.toLock[0];
      assert TxOk(s, t);
      var tx := s.txs[t].(phase := p.(toLock := p.toLock[1..], seen := p.seen[key := Lookup(s.onHand, key)]));
      var owner := s.owner[key := t];
      var s' := s.(owner := owner, txs := s.txs[t := tx]);
      forall k | k in p.candidates ensures k in tx.phase.seen || k in tx.phase.toLock {
        if k in p.toLock && k != key {
          var i :| 0 <= i < |p.toLock| && p.toLock[i] == k;
          assert p.toLock[1..][i - 1] == k;
        }
      }
      assert TxOk(s', t);
      OwnStep(s, t, tx, owner);
    }
  }

  lemma SumKeeps(s: State, t: TxId)
    requires LockInv(s)
    ensures LockInv(SumStep(s, t))
  {
    if SumStep(s, t) != s {
      assert TxOk(s, t);
      var tx := SumStep(s, t).txs[t];
      var s' := s.(owner := s.owner, txs := s.txs[t := tx]);
      forall i | 0 <= i < |tx.phase.candidates|
        ensures Owns(s', t, tx.phase.candidates[i])
        ensures tx.phase.available[i] + HeldSum(s'.rows, tx.phase.candidates[i]) +
          DrawnAt(tx.pending, tx.phase.candidates[i])
                <= Lookup(s'.onHand, tx.phase.candidates[i])
      {
        assert tx.phase.candidates[i] in s.txs[t].phase.candidates;
        HeldWithinActive(s.rows, tx.phase.candidates[i]);
      }
      OwnStep(s, t, tx, s.owner);
    }
  }

  lemma InsertKeeps(s: State, t: TxId)
    requires LockInv(s)
    ensures LockInv(InsertStep(s, t))
  {
    if t in s.txs && s.txs[t].phase.Picking? {
      assert TxOk(s, t);
      var tx := s.txs[t];
      var picked := Select(true, tx.phase.candidates, tx.phase.available, tx.phase.need);
      if picked.Err? {
        CloseKeeps(s, t, s.rows);
        assert s.(rows := s.rows) == s;
      } else {
        forall k ensures InsertedAt(s, t, picked.value, k) { InsertedBound(s, t, picked.value, k); }
        InsertedKeeps(s, t, picked.value);
      }
    }
  }

  /** What an insert adds at one key: nothing without the lock, and never more than is left on hand. */
  ghost predicate InsertedAt(s: State, t: TxId, portions: seq<Portion>, key: Key)
    requires t in s.txs
  {
    && DrawnAt(s.txs[t].pending + portions, key) == DrawnAt(s.txs[t].pending, key) + DrawnAt(portions, key)
    && (DrawnAt(portions, key) > 0 ==>
          Owns(s, t, key) &&
            HeldSum(s.rows, key) + DrawnAt(s.txs[t].pending, key) + DrawnAt(portions, key) <= Lookup(s.onHand, key))
  }

  lemma InsertedBound(s: State, t: TxId, portions: seq<Portion>, key: Key)
    requires t in s.txs && TxOk(s, t) && s.txs[t].phase.Picking?
    requires Select(true, s.txs[t].phase.candidates, s.txs[t].phase.available, s.txs[t].phase.need) == Ok(portions)
    ensures InsertedAt(s, t, portions, key)
  {
    var p := s.txs[t].phase;
    DrawnAtConcat(s.txs[t].pending, portions, key);
    DrawWithinAvailable(p.candidates, p.available, p.need, key);
    if DrawnAt(portions, key) > 0 {
      var i :| 0 <= i < |p.candidates| && p.candidates[i] == key;
      assert Owns(s, t, p.candidates[i]);
    }
  }

  lemma InsertedKeeps(s: State, t: TxId, portions: seq<Portion>)
    requires LockInv(s) && t in s.txs && forall k :: InsertedAt(s, t, portions, k)
    ensures LockInv(SetTx(s, t, Tx(Idle, s.txs[t].pending + portions)))
  {
    var s' := SetTx(s, t, Tx(Idle, s.txs[t].pending + portions));
    assert TxOk(s, t);
    forall k ensures KeyOk(s', k) {
      assert KeyOk(s, k) && InsertedAt(s, t, portions, k);
    }
    forall u | u in s'.txs ensures TxOk(s', u) {
      if u == t {
        forall k | DrawnAt(s'.txs[t].pending, k) > 0 ensures Owns(s', t, k) {
          assert InsertedAt(s, t, portions, k);
        }
      } else {
        assert TxOk(s, u);
        TxKept(s, s', u);
      }
    }
  }

  /** The balance of `key` falls by the quantity of the held row being posted. */
  predicate PostedAt(s: State, row: nat, onHand: map<Key, int>, key: Key)
    requires row < |s.rows|
  {
    && s.rows[row].key == key && s.rows[row].state == Held && Free(s, key)
    && Lookup(onHand, key) == Lookup(s.onHand, key) - s.rows[row].quantity
  }

  /** Cancelling, posting and consuming rows; posting needs the balance row to be free. */
  lemma RowKeeps(s: State, row: nat, state: RowState, onHand: map<Key, int>)
    requires LockInv(s) && row < |s.rows| && state != Held
    requires forall k :: Lookup(onHand, k) == Lookup(s.onHand, k) || PostedAt(s, row, onHand, k)
    ensures LockInv(SetRow(s.(onHand := onHand), row, state))
  {
    var s' := SetRow(s.(onHand := onHand), row, state);
    forall k ensures HeldSum(s'.rows, k) ==
      HeldSum(s.rows, k) - (if s.rows[row].key == k && s.rows[row].state == Held then s.rows[row].quantity else 0) {
      HeldAfterSet(s.rows, row, state, k);
    }
    forall k ensures KeyOk(s', k) { assert KeyOk(s, k); }
    forall u | u in s'.txs ensures TxOk(s', u) {
      assert TxOk(s, u);
      TxKept(s, s', u);
    }
  }

  lemma ReceiveKeeps(s: State, key: Key, quantity: nat)
    requires LockInv(s)
    ensures LockInv(Next(s, Receive(key, quantity)))
  {
    var s' := Next(s, Receive(key, quantity));
    forall k ensures KeyOk(s', k) { assert KeyOk(s, k); }
    forall u | u in s'.txs ensures TxOk(s', u) {
      assert TxOk(s, u);
      TxKept(s, s', u);
    }
  }

  lemma WithdrawKeeps(s: State, key: Key, quantity: nat)
    requires LockInv(s)
    ensures LockInv(WithdrawStep(s, key, quantity))
  {
    var s' := WithdrawStep(s, key, quantity);
    forall k ensures KeyOk(s', k) { assert KeyOk(s, k); }
    forall u | u in s'.txs ensures TxOk(s', u) {
      assert TxOk(s, u);
      TxKept(s, s', u);
    }
  }

  lemma StepKeeps(s: State, step: Step)
    requires LockInv(s)
    ensures LockInv(Next(s, step))
  {
    match step
    case Begin(t) => if t !in s.txs { BeginKeeps(s, t); }
    case ReadCandidates(t, candidates, need, lockOrder) => ReadKeeps(s, t, candidates, need, lockOrder);
    case LockNext(t) => LockKeeps(s, t);
    case SumReservations(t) => SumKeeps(s, t);
    case InsertPortions(t) => InsertKeeps(s, t);
    case CommitTx(t) => CommitKeeps(s, t);
    case RollbackTx(t) => RollbackKeeps(s, t);
    case CancelRow(row) => CancelRowKeeps(s, row);
    case PostRow(row) => PostRowKeeps(s, row);
    case ConsumeRow(row) => ConsumeRowKeeps(s, row);
    case Receive(key, quantity) => ReceiveKeeps(s, key, quantity);
    case Withdraw(key, quantity) => WithdrawKeeps(s, key, quantity);
  }

  lemma RollbackKeeps(s: State, t: TxId)
    requires LockInv(s)
    ensures LockInv(Next(s, RollbackTx(t)))
  {
    if t in s.txs {
      CloseKeeps(s, t, s.rows);
      assert s.(rows := s.rows) == s;
    }
  }

  lemma CancelRowKeeps(s: State, row: nat)
    requires LockInv(s)
    ensures LockInv(Next(s, CancelRow(row)))
  {
    if row < |s.rows| && s.rows[row].state == Held {
      RowKeeps(s, row, Released, s.onHand);
      assert s.(onHand := s.onHand) == s;
    }
  }

  lemma PostRowIs(s: State, row: nat)
    ensures Next(s, PostRow(row)) ==
      if row < |s.rows| && s.rows[row].state == Held && Free(s, s.rows[row].key) &&
        s.rows[row].quantity <= Lookup(s.onHand, s.rows[row].key)
      then SetRow(s.(onHand := s.onHand[s.rows[row].key := Lookup(s.onHand, s.rows[row].key) - s.rows[row].quantity]),
        row, Posted)
      else s
  {
  }

  lemma PostRowKeeps(s: State, row: nat)
    requires LockInv(s)
    ensures LockInv(Next(s, PostRow(row)))
  {
    PostRowIs(s, row);
    if row < |s.rows| && s.rows[row].state == Held && Free(s, s.rows[row].key) &&
        s.rows[row].quantity <= Lookup(s.onHand, s.rows[row].key) {
      RowKeeps(s, row, Posted, s.onHand[s.rows[row].key := Lookup(s.onHand, s.rows[row].key) - s.rows[row].quantity]);
    }
  }

  lemma ConsumeRowKeeps(s: State, row: nat)
    requires LockInv(s)
    ensures LockInv(Next(s, ConsumeRow(row)))
  {
    if row < |s.rows| && s.rows[row].state == Posted {
      RowKeeps(s, row, Consumed, s.onHand);
      assert s.(onHand := s.onHand) == s;
    }
  }

  lemma BeginKeeps(s: State, t: TxId)
    requires LockInv(s) && t !in s.txs
    ensures LockInv(SetTx(s, t, Tx(Idle, [])))
  {
    OwnStep(s, t, Tx(Idle, []), s.owner);
    assert s.(owner := s.owner, txs := s.txs[t := Tx(Idle, [])]) == SetTx(s, t, Tx(Idle, []));
  }

  lemma ReadKeeps(s: State, t: TxId, candidates: seq<Key>, need: nat, lockOrder: seq<Key>)
    requires LockInv(s)
    ensures LockInv(Next(s, ReadCandidates(t, candidates, need, lockOrder)))
  {
    var s' := Next(s, ReadCandidates(t, candidates, need, lockOrder));
    if s' != s {
      var tx := s'.txs[t];
      assert TxOk(s, t);
      OwnStep(s, t, tx, s.owner);
      assert s.(owner := s.owner, txs := s.txs[t := tx]) == s';
    }
  }

  lemma {:induction false} EveryRun(onHand: map<Key, int>, steps: seq<Step>)
    requires forall k :: k in onHand ==> onHand[k] >= 0
    ensures LockInv(Run(Start(onHand), steps))
  {
    if steps != [] {
      EveryRun(onHand, steps[..|steps| - 1]);
      StepKeeps(Run(Start(onHand), steps[..|steps| - 1]), steps[|steps| - 1]);
    } else {
      var s := Start(onHand);
      forall key ensures KeyOk(s, key) {}
    }
  }

  /**
   * No over-commit under interleaving: in every reachable state the committed reservations of a
   * balance row that are not yet posted, together with those its lock holder has not yet committed,
   * exceed its on-hand quantity by no more than what left the row for something else.
   */
  lemma NeverOvercommitted(onHand: map<Key, int>, steps: seq<Step>, key: Key)
    requires forall k :: k in onHand ==> onHand[k] >= 0
    ensures var s := Run(Start(onHand), steps);
      && Reserved(s, key) <= Lookup(s.onHand, key) + Drained(s, key)
      && Drained(s, key) <= Withdrawn(steps, key)
  {
    EveryRun(onHand, steps);
    assert KeyOk(Run(Start(onHand), steps), key);
    DrainedBound(Start(onHand), steps, key);
  }

  /** What the withdrawals of a run ask for at one balance row, granted or not. */
  function Withdrawn(steps: seq<Step>, key: Key): nat {
    if steps == [] then 0 else
      var n := |steps| - 1;
      Withdrawn(steps[..n], key) + (if steps[n].Withdraw? && steps[n].key == key then steps[n].quantity else 0)
  }

  lemma {:induction false} DrainedBound(s: State, steps: seq<Step>, key: Key)
    ensures Drained(Run(s, steps), key) <= Drained(s, key) + Withdrawn(steps, key)
  {
    if steps != [] {
      DrainedBound(s, steps[..|steps| - 1], key);
      DrainedByStep(Run(s, steps[..|steps| - 1]), steps[|steps| - 1], key);
    }
  }

  lemma DrainedByStep(s: State, step: Step, key: Key)
    ensures step.Withdraw? || Next(s, step).drained == s.drained
    ensures Drained(Next(s, step), key) <=
      Drained(s, key) + if step.Withdraw? && step.key == key then step.quantity else 0
  {
  }

  /**
   * Whatever has happened before, no interleaving of allocations, cancels, receipts and postings of
   * held rows takes a balance row from covered to over-committed: only a withdrawal from it can.
   */
  lemma OnlyWithdrawalsOvercommit(onHand: map<Key, int>, steps: seq<Step>, step: Step, key: Key)
    requires forall k :: k in onHand ==> onHand[k] >= 0
    ensures var s := Run(Start(onHand), steps);
      Reserved(s, key) <= Lookup(s.onHand, key) && Reserved(Next(s, step), key) > Lookup(Next(s, step).onHand, key) ==>
        step.Withdraw? && step.key == key
  {
    EveryRun(onHand, steps);
    var s := Run(Start(onHand), steps);
    if Reserved(s, key) <= Lookup(s.onHand, key) && !(step.Withdraw? && step.key == key) {
      CoveredStaysCovered(s, step, key);
    }
  }

  /** A covered row may be taken for one that was never drained. */
  lemma CoveredStaysCovered(s: State, step: Step, key: Key)
    requires LockInv(s) && Reserved(s, key) <= Lookup(s.onHand, key)
    requires !(step.Withdraw? && step.key == key)
    ensures Reserved(Next(s, step), key) <= Lookup(Next(s, step).onHand, key)
  {
    if step.Withdraw? {
      assert Next(s, step) == WithdrawStep(s, step.key, step.quantity);
    } else {
      var d := s.drained[key := 0];
      Undrained(s, key);
      StepKeeps(s.(drained := d), step);
      DrainedApart(s, step, d);
      assert KeyOk(Next(s, step).(drained := d), key);
    }
  }

  lemma Undrained(s: State, key: Key)
    requires LockInv(s) && Reserved(s, key) <= Lookup(s.onHand, key)
    ensures LockInv(s.(drained := s.drained[key := 0]))
  {
    var s' := s.(drained := s.drained[key := 0]);
    forall k ensures KeyOk(s', k) { assert KeyOk(s, k); }
    forall u | u in s'.txs ensures TxOk(s', u) {
      assert TxOk(s, u);
      TxKept(s, s', u);
    }
  }

  /** What was drained is counted and never looked at. */
  lemma DrainedApart(s: State, step: Step, d: map<Key, nat>)
    requires !step.Withdraw?
    ensures Next(s.(drained := d), step) == Next(s, step).(drained := d)
  {
    match step
    case LockNext(t) => LockApart(s, t, d);
    case SumReservations(t) => SumApart(s, t, d);
    case InsertPortions(t) => InsertApart(s, t, d);
    case CommitTx(t) => CommitApart(s, t, d);
    case PostRow(row) => PostApart(s, row, d);
    case _ =>
  }

  lemma LockApart(s: State, t: TxId, d: map<Key, nat>)
    ensures LockStep(s.(drained := d), t) == LockStep(s, t).(drained := d)
  {
  }

  lemma SumApart(s: State, t: TxId, d: map<Key, nat>)
    ensures SumStep(s.(drained := d), t) == SumStep(s, t).(drained := d)
  {
  }

  lemma InsertApart(s: State, t: TxId, d: map<Key, nat>)
    ensures InsertStep(s.(drained := d), t) == InsertStep(s, t).(drained := d)
  {
  }

  lemma CommitApart(s: State, t: TxId, d: map<Key, nat>)
    ensures Next(s.(drained := d), CommitTx(t)) == Next(s, CommitTx(t)).(drained := d)
  {
  }

  lemma PostApart(s: State, row: nat, d: map<Key, nat>)
    ensures Next(s.(drained := d), PostRow(row)) == Next(s, PostRow(row)).(drained := d)
  {
    PostRowIs(s, row);
    PostRowIs(s.(drained := d), row);
  }

  /** Only a commit by the holder of a balance row's lock ever adds a reservation against it. */
  lemma OnlyHolderAdds(onHand: map<Key, int>, steps: seq<Step>, step: Step, key: Key)
    requires forall k :: k in onHand ==> onHand[k] >= 0
    ensures var s := Run(Start(onHand), steps);
      HeldSum(Next(s, step).rows, key) > HeldSum(s.rows, key) ==> step.CommitTx? && Owns(s, step.t, key)
  {
    EveryRun(onHand, steps);
    var s := Run(Start(onHand), steps);
    match step
    case CommitTx(t) => CommitAdds(s, t, key);
    case CancelRow(row) => RowAddsNothing(s, row, Released, key);
    case PostRow(row) => RowAddsNothing(s, row, Posted, key);
    case ConsumeRow(row) => RowAddsNothing(s, row, Consumed, key);
    case _ =>
  }

  lemma CommitAdds(s: State, t: TxId, key: Key)
    requires LockInv(s)
    ensures HeldSum(Next(s, CommitTx(t)).rows, key) > HeldSum(s.rows, key) ==> Owns(s, t, key)
  {
    if t in s.txs && s.txs[t].phase.Idle? {
      HeldConcat(s.rows, RowsOf(s.txs[t].pending), key);
      HeldOfPortions(s.txs[t].pending, key);
      assert TxOk(s, t);
    }
  }

  lemma RowAddsNothing(s: State, row: nat, state: RowState, key: Key)
    requires state != Held
    ensures row < |s.rows| ==> HeldSum(SetRow(s, row, state).rows, key) <= HeldSum(s.rows, key)
  {
    if row < |s.rows| { HeldAfterSet(s.rows, row, state, key); }
  }

  // ---------------------------------------------------------------------------
  // One allocation from start to end

  /** The rows as the order tables hold them: one whose stock has left is ACTIVE until it is consumed. */
  function StatusOf(state: RowState): O.AllocationStatus {
    match state
    case Held => O.Active
    case Posted => O.Active
    case Released => O.Released
    case Consumed => O.Consumed
  }

  function AsAllocations(rows: seq<Row>): (a: seq<O.Allocation>)
    ensures |a| == |rows|
  {
    seq(|rows|, i requires 0 <= i < |rows| =>
      O.Allocation(0, i, rows[i].key, rows[i].quantity, StatusOf(rows[i].state)))
  }

  /** The sum under the lock is the reservation sum of the order tables. */
  lemma {:induction false} ActiveIsReserved(rows: seq<Row>, key: Key)
    ensures ActiveSum(rows, key) == O.Reserved(AsAllocations(rows), key)
  {
    if rows != [] {
      var n := |rows| - 1;
      ActiveIsReserved(rows[..n], key);
      assert AsAllocations(rows)[..n] == AsAllocations(rows[..n]);
    }
  }

  /** A withdrawal by others is granted exactly when the balance row is free and holds enough, and takes just that. */
  lemma WithdrawAnswers(s: State, key: Key, quantity: nat)
    ensures var t, granted := Next(s, Withdraw(key, quantity)), key !in s.owner && quantity <= Lookup(s.onHand, key);
      && (!granted ==> t == s)
      && (granted ==>
           && t.rows == s.rows && t.owner == s.owner && t.txs == s.txs
           && Drained(t, key) == Drained(s, key) + quantity
           && forall k :: Lookup(t.onHand, k) == Lookup(s.onHand, k) - if k == key then quantity else 0)
  {
  }

  /** What cancelling, posting and consuming do to a row of their own state, and to the stock. */
  lemma RowAnswers(s: State, row: nat)
    requires row < |s.rows|
    ensures var r := s.rows[row];
      && Next(s, CancelRow(row)) == (if r.state == Held then s.(rows := s.rows[row := r.(state := Released)]) else s)
      && Next(s, ConsumeRow(row)) == (if r.state == Posted then s.(rows := s.rows[row := r.(state := Consumed)]) else s)
      && var p := Next(s, PostRow(row));
         if r.state == Held && r.key !in s.owner && r.quantity <= Lookup(s.onHand, r.key)
         then p.rows == s.rows[row := r.(state := Posted)]
           && forall k :: Lookup(p.onHand, k) == Lookup(s.onHand, k) - if k == r.key then r.quantity else 0
         else p == s
  {
  }

  /** Unreserved stock of the candidates: what the atomic allocation of module Orders goes by. */
  function Unreserved(s: State, candidates: seq<Key>): (a: seq<int>)
    ensures |a| == |candidates|
  {
    seq(|candidates|, i requires 0 <= i < |candidates| =>
      Lookup(s.onHand, candidates[i]) - ActiveSum(s.rows, candidates[i]))
  }

  function Locks(t: TxId, n: nat): seq<Step> { if n == 0 then [] else Locks(t, n - 1) + [LockNext(t)] }

  /** The steps of one transaction that serves one request. */
  function OneAllocation(t: TxId, candidates: seq<Key>, need: nat, lockOrder: seq<Key>): seq<Step> {
    [Begin(t)] + [ReadCandidates(t, candidates, need, lockOrder)] + Locks(t, |lockOrder|)
      + [SumReservations(t)] + [InsertPortions(t)] + [CommitTx(t)]
  }

  lemma RunNext(s: State, steps: seq<Step>, at: State, step: Step)
    requires Run(s, steps) == at
    ensures Run(s, steps + [step]) == Next(at, step)
  {
    assert (steps + [step])[..|steps|] == steps;
  }

  /** The first `n` keys in lock order. */
  function Front(lockOrder: seq<Key>, n: nat): set<Key>
    requires n <= |lockOrder|
  {
    if n == 0 then {} else Front(lockOrder, n - 1) + {lockOrder[n - 1]}
  }

  lemma {:induction false} FrontIn(lockOrder: seq<Key>, n: nat)
    requires n <= |lockOrder|
    ensures forall k :: k in Front(lockOrder, n) <==> k in lockOrder[..n]
  {
    if n > 0 {
      FrontIn(lockOrder, n - 1);
      assert lockOrder[..n] == lockOrder[..n - 1] + [lockOrder[n - 1]];
    }
  }

  /** The transaction with the locks `own` on top of what others hold: it has seen what they lock. */
  ghost predicate Reading(s: State, at: State, t: TxId, candidates: seq<Key>, need: nat, toLock: seq<Key>,
      own: set<Key>) {
    && at == s.(owner := at.owner, txs := at.txs)
    && t in at.txs && at.txs == s.txs[t := Tx(at.txs[t].phase, [])]
    && (exists seen :: SeenIs(s, seen, own) && at.txs[t].phase == Locking(candidates, need, toLock, seen))
    && OwnerIs(s, at.owner, t, own)
  }

  ghost predicate SeenIs(s: State, seen: map<Key, int>, own: set<Key>) {
    seen.Keys == own && forall k :: k in seen ==> seen[k] == Lookup(s.onHand, k)
  }

  ghost predicate OwnerIs(s: State, owner: map<Key, TxId>, t: TxId, own: set<Key>) {
    && owner.Keys == s.owner.Keys + own
    && (forall k :: k in own ==> owner[k] == t)
    && (forall k :: k in s.owner && k !in own ==> owner[k] == s.owner[k])
  }

  lemma LockOneMore(s: State, at: State, t: TxId, candidates: seq<Key>, need: nat, toLock: seq<Key>, own: set<Key>)
    requires Reading(s, at, t, candidates, need, toLock, own) && toLock != [] && Free(s, toLock[0])
    ensures Reading(s, LockStep(at, t), t, candidates, need, toLock[1..], own + {toLock[0]})
  {
    var key, p, after := toLock[0], at.txs[t].phase, LockStep(at, t);
    var seen := p.seen[key := Lookup(at.onHand, key)];
    assert SeenIs(s, seen, own + {key});
    assert after.txs[t].phase == Locking(candidates, need, toLock[1..], seen);
    assert OwnerIs(s, at.owner[key := t], t, own + {key});
  }

  function AfterLocks(at: State, t: TxId, n: nat): State {
    if n == 0 then at else LockStep(AfterLocks(at, t, n - 1), t)
  }

  lemma {:induction false} LocksTaken(s: State, at: State, t: TxId, candidates: seq<Key>, need: nat,
      lockOrder: seq<Key>,
      n: nat)
    requires Reading(s, at, t, candidates, need, lockOrder, {})
    requires n <= |lockOrder| && forall k :: k in lockOrder ==> Free(s, k)
    ensures Reading(s, AfterLocks(at, t, n), t, candidates, need, lockOrder[n..], Front(lockOrder, n))
  {
    if n == 0 {
      assert lockOrder[0..] == lockOrder;
    } else {
      LocksTaken(s, at, t, candidates, need, lockOrder, n - 1);
      assert lockOrder[n - 1] in lockOrder;
      assert lockOrder[n - 1..][0] == lockOrder[n - 1] && lockOrder[n - 1..][1..] == lockOrder[n..];
      LockOneMore(s, AfterLocks(at, t, n - 1), t, candidates, need, lockOrder[n - 1..], Front(lockOrder, n - 1));
    }
  }

  lemma {:induction false} LocksRun(s: State, steps: seq<Step>, at: State, t: TxId, n: nat)
    requires Run(s, steps) == at
    ensures Run(s, steps + Locks(t, n)) == AfterLocks(at, t, n)
  {
    if n == 0 {
      LocksNone(steps, t);
    } else {
      LocksRun(s, steps, at, t, n - 1);
      LocksNext(s, steps, AfterLocks(at, t, n - 1), t, n);
    }
  }

  lemma LocksNone(steps: seq<Step>, t: TxId)
    ensures steps + Locks(t, 0) == steps
  {
  }

  lemma LocksNext(s: State, steps: seq<Step>, before: State, t: TxId, n: nat)
    requires n > 0 && Run(s, steps + Locks(t, n - 1)) == before
    ensures Run(s, steps + Locks(t, n)) == LockStep(before, t)
  {
    RunNext(s, steps + Locks(t, n - 1), before, LockNext(t));
    assert steps + Locks(t, n - 1) + [LockNext(t)] == steps + Locks(t, n);
  }

  /** All locks are taken. */
  ghost predicate Locked(s: State, at: State, t: TxId, candidates: seq<Key>, need: nat, own: set<Key>) {
    Reading(s, at, t, candidates, need, [], own) && forall k :: k in candidates <==> k in own
  }

  /** Then the transaction knows exactly what is unreserved. */
  lemma SumsUnreserved(s: State, at: State, t: TxId, candidates: seq<Key>, need: nat, own: set<Key>)
    requires Locked(s, at, t, candidates, need, own)
    ensures SumStep(at, t) == SetTx(at, t, Tx(Picking(candidates, need, Unreserved(s, candidates)), []))
  {
    var p := at.txs[t].phase;
    forall i | 0 <= i < |candidates| ensures Lookup(p.seen, candidates[i]) == Lookup(s.onHand, candidates[i]) {
      assert candidates[i] in own;
    }
    var available := seq(|p.candidates|, i requires 0 <= i < |p.candidates| =>
      Lookup(p.seen, p.candidates[i]) - (ActiveSum(at.rows, p.candidates[i]) + DrawnAt([], p.candidates[i])));
    assert available == Unreserved(s, candidates);
  }

  /** Releasing the locks puts everything but the rows back as it was. */
  lemma ClosedAgain(s: State, at: State, t: TxId, candidates: seq<Key>, need: nat, own: set<Key>, rows: seq<Row>,
      tx: Tx)
    requires Locked(s, at, t, candidates, need, own) && t !in s.txs
    requires (forall k :: k in own ==> Free(s, k)) && forall k :: k in s.owner ==> s.owner[k] != t
    ensures Close(SetTx(at, t, tx).(rows := rows), t) == s.(rows := rows)
  {
    var after := Close(SetTx(at, t, tx).(rows := rows), t);
    assert after.txs == s.txs;
    assert after.owner == s.owner;
  }

  /**
   * Left alone, a transaction refines the atomic selection: it adds exactly the portions that `Select` draws
   * from the unreserved stock, or nothing when that falls short, and leaves no lock and no trace behind.
   */
  lemma UndisturbedAllocates(s: State, t: TxId, candidates: seq<Key>, need: nat, lockOrder: seq<Key>)
    requires t !in s.txs && Distinct(candidates) && SameKeys(candidates, lockOrder)
    requires (forall k :: k in candidates ==> Free(s, k)) && forall k :: k in s.owner ==> s.owner[k] != t
    ensures var picked := Select(true, candidates, Unreserved(s, candidates), need);
      Run(s, OneAllocation(t, candidates, need, lockOrder)) ==
        if picked.Ok? then s.(rows := s.rows + RowsOf(picked.value)) else s
  {
    var steps := [Begin(t)] + [ReadCandidates(t, candidates, need, lockOrder)];
    var read := FirstTwo(s, t, candidates, need, lockOrder);
    var n := |lockOrder|;
    LocksTaken(s, read, t, candidates, need, lockOrder, n);
    LocksRun(s, steps, read, t, n);
    FrontIn(lockOrder, n);
    assert lockOrder[n..] == [] && lockOrder[..n] == lockOrder;
    LastThree(s, steps + Locks(t, n), AfterLocks(read, t, n), t, candidates, need, Front(lockOrder, n));
  }

  lemma FirstTwo(s: State, t: TxId, candidates: seq<Key>, need: nat, lockOrder: seq<Key>) returns (read: State)
    requires t !in s.txs && Distinct(candidates) && SameKeys(candidates, lockOrder)
    ensures Run(s, [Begin(t)] + [ReadCandidates(t, candidates, need, lockOrder)]) == read
    ensures Reading(s, read, t, candidates, need, lockOrder, {})
  {
    var begun := SetTx(s, t, Tx(Idle, []));
    read := SetTx(begun, t, Tx(Locking(candidates, need, lockOrder, map[]), []));
    assert [] + [Begin(t)] == [Begin(t)] && Run(s, []) == s;
    RunNext(s, [], s, Begin(t));
    RunNext(s, [Begin(t)], begun, ReadCandidates(t, candidates, need, lockOrder));
    assert Next(begun, ReadCandidates(t, candidates, need, lockOrder)) == read;
    assert read.txs == s.txs[t := read.txs[t]];
    assert SeenIs(s, map[], {});
  }

  lemma LastThree(s: State, steps: seq<Step>, locked: State, t: TxId, candidates: seq<Key>, need: nat, own: set<Key>)
    requires Run(s, steps) == locked && Locked(s, locked, t, candidates, need, own) && t !in s.txs
    requires (forall k :: k in own ==> Free(s, k)) && forall k :: k in s.owner ==> s.owner[k] != t
    ensures var picked := Select(true, candidates, Unreserved(s, candidates), need);
      Run(s, steps + [SumReservations(t)] + [InsertPortions(t)] + [CommitTx(t)]) ==
        if picked.Ok? then s.(rows := s.rows + RowsOf(picked.value)) else s
  {
    var picked := Select(true, candidates, Unreserved(s, candidates), need);
    var summed := SetTx(locked, t, Tx(Picking(candidates, need, Unreserved(s, candidates)), []));
    var inserted := if picked.Ok? then SetTx(locked, t, Tx(Idle, picked.value)) else s;
    var done := if picked.Ok? then s.(rows := s.rows + RowsOf(picked.value)) else s;
    SumsUnreserved(s, locked, t, candidates, need, own);
    Inserted(s, locked, t, candidates, need, own, picked);
    if picked.Ok? { InsertsPicked(s, locked, t, candidates, need, own, picked.value); }
    NextIs(locked, summed, t);
    RunThree(s, steps, locked, t, summed, inserted, done);
  }

  lemma NextIs(s: State, u: State, t: TxId)
    ensures Next(s, SumReservations(t)) == SumStep(s, t) && Next(u, InsertPortions(t)) == InsertStep(u, t)
    ensures t !in s.txs ==> Next(s, CommitTx(t)) == s
  {
  }

  lemma RunThree(s: State, steps: seq<Step>, at: State, t: TxId, summed: State, inserted: State, done: State)
    requires Run(s, steps) == at && Next(at, SumReservations(t)) == summed
    requires Next(summed, InsertPortions(t)) == inserted && Next(inserted, CommitTx(t)) == done
    ensures Run(s, steps + [SumReservations(t)] + [InsertPortions(t)] + [CommitTx(t)]) == done
  {
    RunNext(s, steps, at, SumReservations(t));
    RunNext(s, steps + [SumReservations(t)], summed, InsertPortions(t));
    RunNext(s, steps + [SumReservations(t)] + [InsertPortions(t)], inserted, CommitTx(t));
  }

  /** The inserts: the portions drawn, or the whole transaction rolled back. */
  lemma Inserted(s: State, locked: State, t: TxId, candidates: seq<Key>, need: nat, own: set<Key>,
      picked: Result<seq<Portion>, SelectError>)
    requires Locked(s, locked, t, candidates, need, own) && t !in s.txs
    requires (forall k :: k in own ==> Free(s, k)) && forall k :: k in s.owner ==> s.owner[k] != t
    requires picked == Select(true, candidates, Unreserved(s, candidates), need)
    ensures InsertStep(SetTx(locked, t, Tx(Picking(candidates, need, Unreserved(s, candidates)), [])), t) ==
      if picked.Ok? then SetTx(locked, t, Tx(Idle, picked.value)) else s
  {
    var tx := Tx(Picking(candidates, need, Unreserved(s, candidates)), []);
    var summed := SetTx(locked, t, tx);
    assert summed.txs[t] == tx;
    if picked.Ok? {
      assert [] + picked.value == picked.value;
      assert summed.txs[t := Tx(Idle, picked.value)] == locked.txs[t := Tx(Idle, picked.value)];
    } else {
      ClosedAgain(s, locked, t, candidates, need, own, s.rows, tx);
      assert summed.(rows := s.rows) == summed && s.(rows := s.rows) == s;
    }
  }

  lemma InsertsPicked(s: State, locked: State, t: TxId, candidates: seq<Key>, need: nat, own: set<Key>,
      picked: seq<Portion>)
    requires Locked(s, locked, t, candidates, need, own) && t !in s.txs
    requires (forall k :: k in own ==> Free(s, k)) && forall k :: k in s.owner ==> s.owner[k] != t
    ensures Next(SetTx(locked, t, Tx(Idle, picked)), CommitTx(t)) == s.(rows := s.rows + RowsOf(picked))
  {
    ClosedAgain(s, locked, t, candidates, need, own, s.rows + RowsOf(picked), Tx(Idle, picked));
  }
}
