/**
 * Stock safety over whole runs, and exactly which cancellations it tolerates. The order lock is
 * released when prepare commits while cancel still accepts a READY order, so a cancellation can
 * overtake a fulfilment: reservations are released that a posting is about to take from stock.
 */
module StockSafety {
  import opened Common
  import opened Fefo
  import opened Orders
  import opened OrderFacts
  import opened FulfilmentProtocol
  import opened FulfilmentInvariant
  import opened FulfilmentTheorems

  // ---------------------------------------------------------------------------
  // What safety says

  function OutstandingWeights(db: Database, key: Key): (w: seq<int>)
    ensures |w| == |db.allocations|
  {
    seq(|db.allocations|, i requires 0 <= i < |db.allocations| =>
      if db.allocations[i].status == Active && !RowPosted(db, db.allocations[i]) && db.allocations[i].key == key
      then db.allocations[i].quantity else 0)
  }

  /** ACTIVE reservations against one balance row whose stock has not been posted yet. */
  function Outstanding(db: Database, key: Key): int { Total(OutstandingWeights(db, key)) }

  /** Every reservation still to be posted is backed by stock on hand. */
  ghost predicate Backed(db: Database) {
    forall k :: k in db.onHand ==> Outstanding(db, k) <= db.onHand[k]
  }

  /** No allocation has left stock and been handed back as well. */
  ghost predicate NeverPostedAndReleased(db: Database) {
    forall i :: 0 <= i < |db.allocations| && db.allocations[i].status == Released ==> !RowPosted(db, db.allocations[i])
  }

  ghost predicate Safe(db: Database) { Backed(db) && NeverPostedAndReleased(db) }

  /** The group a call would post next, if it has one left to post. */
  function NextGroup(call: Call): Option<Group> {
    if call.stage == BeforeGeneral && call.general != [] then Some(General)
    else if call.stage in {BeforeGeneral, BeforeJob} && call.job != [] then Some(JobOutput)
    else None
  }

  /** A posting under this key could still be accepted as new. */
  predicate Open(db: Database, o: Id, group: Group)
    requires o < |db.orders|
  {
    var key := PostingKey(db.orders[o].documentNo, group);
    DocumentKey(group, key) in db.documents && key !in db.postings && key !in db.foreign
  }

  /** Nothing of the order is posted, and no call on it is about to post anything. */
  predicate Quiet(s: System, o: Id)
    requires o < |s.db.orders|
  {
    && !GroupPosted(s.db, o, General) && !GroupPosted(s.db, o, JobOutput)
    && forall c :: 0 <= c < |s.calls| ==> !AboutToPost(s.db, o, s.calls[c])
  }

  /** The next posting of this call, for this order, could still be accepted as new. */
  predicate AboutToPost(db: Database, o: Id, call: Call)
    requires o < |db.orders|
  {
    call.order == o && NextGroup(call).Some? && Open(db, o, NextGroup(call).value)
  }

  /** Cancellations that commit do not overtake a fulfilment of the same order. */
  predicate CalmStep(s: System, step: Step) {
    step.CancelOrder? && Cancel(s.db, step.order, step.version, step.reasonGiven).Ok? ==> Quiet(s, step.order)
  }

  ghost predicate Calm(s: System, steps: seq<Step>) {
    steps == [] ||
      (Calm(s, steps[..|steps| - 1]) && CalmStep(Run(s, steps[..|steps| - 1]), steps[|steps| - 1]))
  }

  ghost predicate CancelledQuiet(s: System) {
    forall o :: 0 <= o < |s.db.orders| && s.db.orders[o].status == Cancelled ==> Quiet(s, o)
  }

  ghost predicate SafeInv(s: System) { Inv(s) && CancelledQuiet(s) && Backed(s.db) }

  /** No document has been filed for either group of the order: a condition on stored rows alone. */
  predicate NoDocuments(db: Database, o: Id)
    requires o < |db.orders|
  {
    forall g :: DocumentKey(g, PostingKey(db.orders[o].documentNo, g)) !in db.documents
  }

  lemma NoDocumentsIsQuiet(s: System, o: Id)
    requires PostingsOk(s.db) && o < |s.db.orders| && NoDocuments(s.db, o)
    ensures Quiet(s, o)
  {
    forall g ensures !GroupPosted(s.db, o, g) {
      var key := PostingKey(s.db.orders[o].documentNo, g);
      assert key in s.db.postings ==> PostingOk(s.db, key);
    }
    forall c | 0 <= c < |s.calls| ensures !AboutToPost(s.db, o, s.calls[c]) {
      if NextGroup(s.calls[c]).Some? { assert !Open(s.db, o, NextGroup(s.calls[c]).value); }
    }
  }

  // ---------------------------------------------------------------------------
  // Cancelled orders stay quiet

  lemma KeysDiffer(a: string, b: string, group: Group)
    requires a != b
    ensures PostingKey(a, group) != PostingKey(b, group)
  {
    KeyCollision(a, group, b, group);
  }

  /** The part of the state that quiet speaks of has not gained anything for order `o`. */
  ghost predicate NoLouder(s: System, s': System, o: Id)
    requires o < |s.db.orders| && o < |s'.db.orders|
  {
    && (forall g :: GroupPosted(s'.db, o, g) ==> GroupPosted(s.db, o, g))
    && (forall g :: Open(s'.db, o, g) ==> Open(s.db, o, g))
    && (forall c :: 0 <= c < |s'.calls| ==> CallNoLouder(s, s'.calls[c], c, o))
  }

  predicate CallNoLouder(s: System, call: Call, c: nat, o: Id) {
    call.order == o && NextGroup(call).Some? ==>
      c < |s.calls| && s.calls[c].order == o && NextGroup(s.calls[c]) == NextGroup(call)
  }

  lemma QuietKeptBy(s: System, s': System, o: Id)
    requires o < |s.db.orders| && o < |s'.db.orders| && Quiet(s, o) && NoLouder(s, s', o)
    ensures Quiet(s', o)
  {
    forall c | 0 <= c < |s'.calls| ensures !AboutToPost(s'.db, o, s'.calls[c]) {
      assert CallNoLouder(s, s'.calls[c], c, o);
      if c < |s.calls| { assert !AboutToPost(s.db, o, s.calls[c]); }
    }
  }

  /** Documents, postings and calls as before. */
  lemma QuietFromTables(s: System, s': System, o: Id)
    requires o < |s.db.orders| && o < |s'.db.orders| && Quiet(s, o)
    requires s'.db.orders[o].documentNo == s.db.orders[o].documentNo
    requires s'.db.postings == s.db.postings && s'.calls == s.calls
    requires s'.db.documents == s.db.documents && s.db.foreign <= s'.db.foreign
    ensures Quiet(s', o)
  {
    QuietKeptBy(s, s', o);
  }

  lemma OtherDocument(db: Database, o: Id, p: Id, group: Group)
    requires OrdersOk(db) && o < |db.orders| && p < |db.orders| && p != o
    ensures PostingKey(db.orders[p].documentNo, group) != PostingKey(db.orders[o].documentNo, group)
  {
    KeysDiffer(db.orders[p].documentNo, db.orders[o].documentNo, group);
  }

  /** Preparing order `p` adds at most documents of that order. */
  lemma PrepareAdds(db: Database, p: Id, v: nat)
    requires Prepare(db, p, v).Ok? && Prepare(db, p, v).value.1.Planned?
    ensures p < |db.orders| && db.orders[p].status == Ready
    ensures var db' := Prepare(db, p, v).value.0;
      && db'.orders == db.orders && db'.postings == db.postings && db'.foreign == db.foreign
      && forall key :: key in db'.documents && key !in db.documents ==>
           key.documentNo == PostingKey(db.orders[p].documentNo, key.group)
  {
  }

  /** A call that is opened changes nothing for another order that was quiet. */
  lemma QuietOpened(s: System, s': System, o: Id, p: Id, call: Call)
    requires OrdersOk(s.db) && o < |s.db.orders| && p < |s.db.orders| && p != o && Quiet(s, o)
    requires s'.db.orders == s.db.orders && s'.db.postings == s.db.postings && s'.db.foreign == s.db.foreign
    requires s'.calls == s.calls + [call] && call.order == p
    requires forall key :: key in s'.db.documents && key !in s.db.documents ==>
      key.documentNo == PostingKey(s.db.orders[p].documentNo, key.group)
    ensures Quiet(s', o)
  {
    forall g ensures Open(s'.db, o, g) ==> Open(s.db, o, g) {
      OtherDocument(s.db, o, p, g);
    }
    forall c | 0 <= c < |s'.calls| ensures CallNoLouder(s, s'.calls[c], c, o) {
      if c < |s.calls| { assert s'.calls[c] == s.calls[c]; } else { assert s'.calls[c] == call; }
    }
    QuietKeptBy(s, s', o);
  }

  lemma QuietBegin(s: System, o: Id, p: Id, v: nat, details: Details)
    requires OrdersOk(s.db) && o < |s.db.orders| && s.db.orders[o].status == Cancelled && Quiet(s, o)
    ensures o < |BeginStep(s, p, v, details).db.orders| && Quiet(BeginStep(s, p, v, details), o)
  {
    var r := Prepare(s.db, p, v);
    if r.Ok? && r.value.1.Planned? {
      PrepareAdds(s.db, p, v);
      QuietOpened(s, BeginStep(s, p, v, details), o, p,
        Call(p, v, r.value.1.general, r.value.1.job, details, BeforeGeneral));
    } else {
      assert BeginStep(s, p, v, details) == s;
    }
  }

  /** No posting of a quiet order is accepted. */
  lemma QuietCannotPost(s: System, c: nat, group: Group, eligible: bool)
    requires c < |s.calls| && CallOk(s.db, s.calls[c]) && Quiet(s, s.calls[c].order)
    requires s.calls[c].stage == StageFor(group) && Moves(s.calls[c], group) != []
    ensures PostOf(s, c, group, eligible).Err?
  {
    assert NextGroup(s.calls[c]) == Some(group);
    assert !AboutToPost(s.db, s.calls[c].order, s.calls[c]);
  }

  lemma QuietPost(s: System, o: Id, c: nat, group: Group, eligible: bool, acknowledged: bool)
    requires Inv(s) && o < |s.db.orders| && Quiet(s, o)
    ensures o < |PostStep(s, c, group, eligible, acknowledged).db.orders| &&
      Quiet(PostStep(s, c, group, eligible, acknowledged), o)
  {
    PostOrders(s, c, group, eligible, acknowledged);
    if c < |s.calls| && s.calls[c].stage == StageFor(group) {
      assert CallOk(s.db, s.calls[c]);
      if Moves(s.calls[c], group) == [] {
        QuietAdvance(s, o, c, StageAfter(group));
      } else if s.calls[c].order == o {
        QuietCannotPost(s, c, group, eligible);
      } else if PostOf(s, c, group, eligible).Ok? {
        QuietOtherPosting(s, o, c, group, eligible);
        if acknowledged { QuietAdvance(s.(db := PostOf(s, c, group, eligible).value), o, c, StageAfter(group)); }
      }
    }
  }

  lemma PostOrders(s: System, c: nat, group: Group, eligible: bool, acknowledged: bool)
    ensures PostStep(s, c, group, eligible, acknowledged).db.orders == s.db.orders
  {
  }

  /** A call of another order, or one with nothing to post for its group, moves on. */
  lemma QuietAdvance(s: System, o: Id, c: nat, stage: Stage)
    requires o < |s.db.orders| && Quiet(s, o) && c < |s.calls|
    requires s.calls[c].order != o || NextGroup(s.calls[c].(stage := stage)).None?
      || NextGroup(s.calls[c].(stage := stage)) == NextGroup(s.calls[c])
    ensures Quiet(AtStage(s, c, stage), o)
  {
    QuietKeptBy(s, AtStage(s, c, stage), o);
  }

  lemma QuietOtherPosting(s: System, o: Id, c: nat, group: Group, eligible: bool)
    requires Inv(s) && o < |s.db.orders| && Quiet(s, o)
    requires c < |s.calls| && s.calls[c].order != o && Moves(s.calls[c], group) != [] &&
      PostOf(s, c, group, eligible).Ok?
    ensures Quiet(s.(db := PostOf(s, c, group, eligible).value), o)
  {
    var db' := AcceptedPosting(s, c, group, eligible);
    QuietUnder(s, db', o, s.calls[c].order, group);
  }

  /** A posting of another order. */
  lemma QuietUnder(s: System, db': Database, o: Id, p: Id, group: Group)
    requires o < |s.db.orders| && p < |s.db.orders| && p != o && Quiet(s, o)
    requires db' == s.db || NewPosting(s.db, db', p, group)
    ensures Quiet(s.(db := db'), o)
  {
    if db' != s.db { PostedGroups(s.db, db', p, group); }
    QuietKeptBy(s, s.(db := db'), o);
  }

  lemma QuietAbandon(s: System, o: Id, c: nat, dropGeneral: bool, dropJob: bool)
    requires o < |s.db.orders| && Quiet(s, o)
    ensures Quiet(AbandonStep(s, c, dropGeneral, dropJob), o)
  {
    QuietKeptBy(s, AbandonStep(s, c, dropGeneral, dropJob), o);
  }

  lemma QuietClose(s: System, o: Id, c: nat, s': System)
    requires o < |s.db.orders| && o < |s'.db.orders| && Quiet(s, o) && c < |s.calls|
    requires s'.db.orders[o].documentNo == s.db.orders[o].documentNo
    requires s'.db.postings == s.db.postings && s'.db.documents == s.db.documents && s'.db.foreign == s.db.foreign
    requires s'.calls == s.calls[c := s.calls[c].(stage := Closed)]
    ensures Quiet(s', o)
  {
    QuietKeptBy(s, s', o);
  }

  /** The transactions on the order tables leave documents, postings and calls alone. */
  predicate TableStep(step: Step) {
    !(step.BeginFulfil? || step.PostGroup? || step.FinishFulfil? || step.AbandonFulfil? || step.CrashFulfil?)
  }

  lemma TableStepFrame(s: System, step: Step)
    requires TableStep(step)
    ensures var s' := Next(s, step);
      && s'.db.postings == s.db.postings && s'.db.documents == s.db.documents && s'.calls == s.calls
      && s.db.foreign <= s'.db.foreign
  {
    match step
    case AllocateOrder(o, v, view) => AllocateFrame(s.db, o, v, view);
    case ReadyOrder(o, v, view) => ReadyFrame(s.db, o, v, view);
    case CancelOrder(o, v, reasonGiven) => CancelFrame(s.db, o, v, reasonGiven);
    case _ =>
  }

  /** Order transactions post nothing, and neither write documents nor take keys. */
  predicate Frame(db: Database, r: Result<Database, Error>) {
    r.Ok? ==>
      r.value.postings == db.postings && r.value.documents == db.documents && r.value.foreign == db.foreign
  }

  lemma AllocateFrame(db: Database, o: Id, v: nat, view: StockView)
    ensures Frame(db, Allocate(db, o, v, view))
  {
  }

  lemma ReadyFrame(db: Database, o: Id, v: nat, view: StockView)
    ensures Frame(db, MarkReady(db, o, v, view))
  {
  }

  lemma CancelFrame(db: Database, o: Id, v: nat, reasonGiven: bool)
    ensures Frame(db, Cancel(db, o, v, reasonGiven))
  {
  }

  lemma FinishFrame(s: System, c: nat)
    ensures var s' := FinishStep(s, c);
      && s'.db.postings == s.db.postings && s'.db.documents == s.db.documents && s'.db.onHand == s.db.onHand
      && s'.db.foreign == s.db.foreign
      && (s'.calls == s.calls || (c < |s.calls| && s'.calls == s.calls[c := s.calls[c].(stage := Closed)]))
  {
  }

  lemma QuietKept(s: System, step: Step, o: Id)
    requires Inv(s) && o < |s.db.orders| && s.db.orders[o].status == Cancelled && Quiet(s, o)
    ensures o < |Next(s, step).db.orders| && Quiet(Next(s, step), o)
  {
    OrderStep(s, step, o);
    if step.BeginFulfil? {
      QuietBegin(s, o, step.order, step.version, step.details);
    } else if step.PostGroup? {
      QuietPost(s, o, step.call, step.group, step.eligible, step.acknowledged);
    } else if step.AbandonFulfil? {
      QuietAbandon(s, o, step.call, step.dropGeneral, step.dropJob);
    } else if step.CrashFulfil? {
      if step.call < |s.calls| { QuietClose(s, o, step.call, AtStage(s, step.call, Closed)); }
    } else if step.FinishFulfil? {
      QuietFinish(s, o, step.call);
    } else {
      TableStepFrame(s, step);
      QuietFromTables(s, Next(s, step), o);
    }
  }

  lemma QuietFinish(s: System, o: Id, c: nat)
    requires o < |s.db.orders| && Quiet(s, o)
    ensures o < |FinishStep(s, c).db.orders| && Quiet(FinishStep(s, c), o)
  {
    FinishOrder(s, c, o);
    FinishFrame(s, c);
    if FinishStep(s, c).calls == s.calls {
      QuietFromTables(s, FinishStep(s, c), o);
    } else {
      QuietClose(s, o, c, FinishStep(s, c));
    }
  }

  lemma CancelledStayQuiet(s: System, step: Step)
    requires Inv(s) && CancelledQuiet(s) && CalmStep(s, step)
    ensures CancelledQuiet(Next(s, step))
  {
    var s' := Next(s, step);
    NewOrdersAreDrafts(s, step);
    forall o | 0 <= o < |s'.db.orders| && s'.db.orders[o].status == Cancelled ensures Quiet(s', o) {
      OrderStep(s, step, o);
      if s.db.orders[o].status == Cancelled {
        QuietKept(s, step, o);
      } else {
        NewlyCancelled(s, step, o);
        TableStepFrame(s, step);
        QuietFromTables(s, s', o);
      }
    }
  }

  /** Only a committed cancel makes an order CANCELLED. */
  /** Only a cancel cancels. */
  lemma EarlyNotCancelled(s: System, step: Step, o: Id)
    requires step.EditDraft? || step.SubmitOrder? || step.ApproveOrder? || step.StartProduction?
    requires o < |s.db.orders| && s.db.orders[o].status != Cancelled
    ensures o < |Next(s, step).db.orders| && Next(s, step).db.orders[o].status != Cancelled
  {
  }

  lemma StockNotCancelled(s: System, step: Step, o: Id)
    requires step.NewDraft? || step.AllocateOrder? || step.ReadyOrder?
    requires o < |s.db.orders| && s.db.orders[o].status != Cancelled
    ensures o < |Next(s, step).db.orders| && Next(s, step).db.orders[o].status != Cancelled
  {
  }

  lemma FinishNotCancelled(s: System, c: nat, o: Id)
    requires o < |s.db.orders| && s.db.orders[o].status != Cancelled
    ensures o < |FinishStep(s, c).db.orders| && FinishStep(s, c).db.orders[o].status != Cancelled
  {
  }

  lemma NewlyCancelled(s: System, step: Step, o: Id)
    requires o < |s.db.orders| && o < |Next(s, step).db.orders|
    requires s.db.orders[o].status != Cancelled && Next(s, step).db.orders[o].status == Cancelled
    ensures step.CancelOrder? && step.order == o && Cancel(s.db, o, step.version, step.reasonGiven).Ok?
  {
    if step.FinishFulfil? {
      FinishNotCancelled(s, step.call, o);
    } else if step.EditDraft? || step.SubmitOrder? || step.ApproveOrder? || step.StartProduction? {
      EarlyNotCancelled(s, step, o);
    } else if step.NewDraft? || step.AllocateOrder? || step.ReadyOrder? {
      StockNotCancelled(s, step, o);
    }
  }

  // ---------------------------------------------------------------------------
  // Reservations stay backed

  /** While no posting is added, a row already in the table only ever stops being outstanding. */
  /** A row whose status is kept once it left ACTIVE, of an order that keeps its number and lines. */
  lemma WeightKept(db: Database, db': Database, key: Key, i: nat)
    requires i < |db.allocations| && RowFinal(db, db', i) && db'.postings == db.postings
    requires var o := db.allocations[i].order;
      && o < |db.orders| && o < |db'.orders|
      && db'.orders[o].documentNo == db.orders[o].documentNo && db'.orders[o].lines == db.orders[o].lines
    ensures OutstandingWeights(db', key)[i] <= OutstandingWeights(db, key)[i]
  {
  }

  lemma WeightShrinks(s: System, step: Step, key: Key, i: nat)
    requires Inv(s) && Possible(step) && i < |s.db.allocations|
    requires Next(s, step).db.postings == s.db.postings
    ensures i < |Next(s, step).db.allocations|
    ensures OutstandingWeights(Next(s, step).db, key)[i] <= OutstandingWeights(s.db, key)[i]
  {
    RowStep(s, step, i);
    assert RowOk(s.db, s.db.allocations[i]);
    OrderStep(s, step, s.db.allocations[i].order);
    WeightKept(s.db, Next(s, step).db, key, i);
  }

  lemma BackedKept(s: System, step: Step)
    requires Inv(s) && Possible(step) && Backed(s.db)
    requires Next(s, step).db.postings == s.db.postings
    requires |Next(s, step).db.allocations| == |s.db.allocations|
    requires Next(s, step).db.onHand == s.db.onHand
    ensures Backed(Next(s, step).db)
  {
    forall k, i | 0 <= i < |s.db.allocations|
      ensures OutstandingWeights(Next(s, step).db, k)[i] <= OutstandingWeights(s.db, k)[i]
    {
      WeightShrinks(s, step, k, i);
    }
    BackedShrunk(s.db, Next(s, step).db);
  }

  lemma BackedShrunk(db: Database, db': Database)
    requires Backed(db) && |db'.allocations| == |db.allocations| && db'.onHand == db.onHand
    requires forall k, i :: 0 <= i < |db.allocations| ==> OutstandingWeights(db', k)[i] <= OutstandingWeights(db, k)[i]
    ensures Backed(db')
  {
    forall k | k in db'.onHand ensures Outstanding(db', k) <= db'.onHand[k] {
      TotalMonotone(OutstandingWeights(db', k), OutstandingWeights(db, k));
    }
  }

  function ActiveWeights(rows: seq<Allocation>, key: Key): (w: seq<int>)
    ensures |w| == |rows|
  {
    seq(|rows|, i requires 0 <= i < |rows| =>
      if rows[i].status == Active && rows[i].key == key then rows[i].quantity else 0)
  }

  lemma {:induction false} ReservedIsTotal(rows: seq<Allocation>, key: Key)
    ensures Reserved(rows, key) == Total(ActiveWeights(rows, key))
  {
    if rows != [] {
      var n := |rows| - 1;
      ReservedIsTotal(rows[..n], key);
      assert ActiveWeights(rows, key)[..n] == ActiveWeights(rows[..n], key);
    }
  }

  /** Outstanding reservations grow by at most what was added, and never exceed all reservations. */
  lemma OutstandingAdded(db: Database, db': Database, added: seq<Allocation>, key: Key)
    requires db'.allocations == db.allocations + added
    requires forall i :: 0 <= i < |db.allocations| ==> OutstandingWeights(db', key)[i] <= OutstandingWeights(db, key)[i]
    ensures Outstanding(db', key) <= Outstanding(db, key) + Reserved(added, key)
    ensures Outstanding(db', key) <= Reserved(db.allocations + added, key)
  {
    OutstandingOfConcat(db.allocations, added, OutstandingWeights(db, key), OutstandingWeights(db', key), key);
  }

  lemma OutstandingAfterAdding(s: System, step: Step, added: seq<Allocation>, key: Key)
    requires Inv(s) && Possible(step) && Next(s, step).db.postings == s.db.postings
    requires Next(s, step).db.allocations == s.db.allocations + added
    ensures Outstanding(Next(s, step).db, key) <= Outstanding(s.db, key) + Reserved(added, key)
    ensures Outstanding(Next(s, step).db, key) <= Reserved(s.db.allocations + added, key)
  {
    forall i | 0 <= i < |s.db.allocations|
      ensures OutstandingWeights(Next(s, step).db, key)[i] <= OutstandingWeights(s.db, key)[i]
    {
      WeightShrinks(s, step, key, i);
    }
    OutstandingAdded(s.db, Next(s, step).db, added, key);
  }

  lemma OutstandingOfConcat(rows: seq<Allocation>, added: seq<Allocation>, w: seq<int>, w': seq<int>, key: Key)
    requires |w| == |rows| && |w'| == |rows + added|
    requires forall i :: 0 <= i < |w| ==> w'[i] <= w[i]
    requires forall i :: 0 <= i < |w'| ==> w'[i] <= ActiveWeights(rows + added, key)[i]
    ensures Total(w') <= Total(w) + Reserved(added, key)
    ensures Total(w') <= Reserved(rows + added, key)
  {
    var n := |rows|;
    TotalMonotone(w'[..n], w);
    forall i | 0 <= i < |added| ensures w'[n..][i] <= ActiveWeights(added, key)[i] {
      assert (rows + added)[n + i] == added[i];
    }
    TotalMonotone(w'[n..], ActiveWeights(added, key));
    TotalConcat(w'[..n], w'[n..]);
    assert w' == w'[..n] + w'[n..];
    ReservedIsTotal(added, key);
    TotalMonotone(w', ActiveWeights(rows + added, key));
    ReservedIsTotal(rows + added, key);
  }

  lemma BackedAfterAdding(s: System, step: Step, added: seq<Allocation>)
    requires Inv(s) && Possible(step) && Backed(s.db)
    requires Next(s, step).db.postings == s.db.postings && Next(s, step).db.onHand == s.db.onHand
    requires Next(s, step).db.allocations == s.db.allocations + added
    requires WithinOnHand(s.db.allocations, added, s.db.onHand)
    ensures Backed(Next(s, step).db)
  {
    forall k | k in s.db.onHand ensures Outstanding(Next(s, step).db, k) <= s.db.onHand[k] {
      OutstandingAfterAdding(s, step, added, k);
    }
  }

  lemma BackedAllocating(s: System, step: Step)
    requires Inv(s) && Possible(step) && Backed(s.db) && (step.AllocateOrder? || step.ReadyOrder?)
    ensures Backed(Next(s, step).db)
  {
    var added;
    if step.AllocateOrder? {
      added := AllocateKeeps(s, step.order, step.version, step.view);
    } else {
      added := MarkReadyKeeps(s, step.order, step.version, step.view);
    }
    if Next(s, step) == s {
    } else {
      BackedAfterAdding(s, step, added);
    }
  }

  lemma BackedReceiving(s: System, key: Key, quantity: nat)
    requires Inv(s) && Backed(s.db)
    ensures Backed(ReceiveStep(s, key, quantity).db)
  {
    var db' := ReceiveStep(s, key, quantity).db;
    forall k | k in db'.onHand ensures Outstanding(db', k) <= db'.onHand[k] {
      assert OutstandingWeights(db', k) == OutstandingWeights(s.db, k);
      if k !in s.db.onHand {
        forall i | 0 <= i < |s.db.allocations| ensures s.db.allocations[i].key != k {
          assert RowOk(s.db, s.db.allocations[i]);
        }
        TotalZero(OutstandingWeights(s.db, k));
      }
    }
  }

  /** A new posting of a READY order takes from stock exactly what stops being outstanding. */
  lemma OutstandingAfterPosting(db: Database, db': Database, o: Id, group: Group, key: Key)
    requires RowsOk(db) && o < |db.orders| && db.orders[o].status == Ready && NewPosting(db, db', o, group)
    ensures Outstanding(db', key) == Outstanding(db, key) - MovedAt(FullPlan(db.orders, db.allocations, o, group), key)
  {
    PostedGroups(db, db', o, group);
    PlanMovesOwned(db.orders, db.allocations, o, group, key);
    var w, w' := OutstandingWeights(db, key), OutstandingWeights(db', key);
    var own := OwnedAt(db.orders, db.allocations, o, group, key);
    forall i | 0 <= i < |w| ensures w[i] == w'[i] + own[i] {
      assert RowOk(db, db.allocations[i]);
    }
    TotalPlus(w', own, w);
  }

  lemma BackedPosting(s: System, c: nat, group: Group, eligible: bool, acknowledged: bool)
    requires SafeInv(s)
    ensures Backed(PostStep(s, c, group, eligible, acknowledged).db)
  {
    if PostStep(s, c, group, eligible, acknowledged).db != s.db {
      var o := s.calls[c].order;
      var db' := AcceptedPosting(s, c, group, eligible);
      FirstPostingIsReady(s, c, group, eligible);
      WithdrawExact(s.db.onHand, FullPlan(s.db.orders, s.db.allocations, o, group));
      forall k | k in db'.onHand ensures Outstanding(db', k) <= db'.onHand[k] {
        OutstandingAfterPosting(s.db, db', o, group, k);
      }
    }
  }

  /** In a safe state, only a READY order can be posted for the first time. */
  lemma FirstPostingIsReady(s: System, c: nat, group: Group, eligible: bool)
    requires SafeInv(s) && c < |s.calls| && s.calls[c].stage == StageFor(group) && Moves(s.calls[c], group) != []
    requires CallOk(s.db, s.calls[c]) && !GroupPosted(s.db, s.calls[c].order, group)
    requires PostOf(s, c, group, eligible).Ok?
    ensures s.db.orders[s.calls[c].order].status == Ready
  {
    var call := s.calls[c];
    if s.db.orders[call.order].status == Cancelled {
      QuietCannotPost(s, c, group, eligible);
    }
    FulfilledGroups(s.db, call.order, group);
  }

  lemma FulfilledGroups(db: Database, o: Id, group: Group)
    requires FulfilledPosted(db) && o < |db.orders|
    ensures db.orders[o].status == Fulfilled ==>
      FullPlan(db.orders, db.allocations, o, group) == [] || GroupPosted(db, o, group)
  {
  }

  lemma SafeStep(s: System, step: Step)
    requires SafeInv(s) && Possible(step) && CalmStep(s, step)
    ensures SafeInv(Next(s, step))
  {
    StepKeeps(s, step);
    CancelledStayQuiet(s, step);
    match step
    case AllocateOrder(o, v, view) => BackedAllocating(s, step);
    case ReadyOrder(o, v, view) => BackedAllocating(s, step);
    case PostGroup(c, group, eligible, acknowledged) => BackedPosting(s, c, group, eligible, acknowledged);
    case ReceiveStock(key, quantity) => BackedReceiving(s, key, quantity);
    case _ =>
      StockUntouched(s, step);
      BackedKept(s, step);
  }

  lemma StockUntouched(s: System, step: Step)
    requires !(step.AllocateOrder? || step.ReadyOrder? || step.PostGroup? || step.ReceiveStock?)
    ensures var s' := Next(s, step);
      s'.db.postings == s.db.postings && s'.db.onHand == s.db.onHand && |s'.db.allocations| == |s.db.allocations|
  {
    if step.FinishFulfil? {
      FinishFrame(s, step.call);
      FinishRowCount(s, step.call);
    } else if !step.CancelOrder? {
      RowsUntouched(s, step);
    }
  }

  lemma FinishRowCount(s: System, c: nat)
    ensures |FinishStep(s, c).db.allocations| == |s.db.allocations|
  {
    if c < |s.calls| && s.calls[c].order < |s.db.orders| {
      var call := s.calls[c];
      var order := s.db.orders[call.order];
      ConsumeKeepsCount(s.db,
        if call.general != [] then Some(PostingKey(order.documentNo, General)) else None,
        if call.job != [] then Some(PostingKey(order.documentNo, JobOutput)) else None,
        call.general + call.job);
    }
  }

  lemma {:induction false} ConsumeKeepsCount(db: Database, g: Option<string>, j: Option<string>,
      movements: seq<Movement>)
    ensures ConsumeAll(db, g, j, movements).Ok? ==>
      |ConsumeAll(db, g, j, movements).value.allocations| == |db.allocations|
  {
    if movements != [] { ConsumeKeepsCount(db, g, j, movements[..|movements| - 1]); }
  }

  lemma SafeInvIsSafe(s: System)
    requires SafeInv(s)
    ensures Safe(s.db)
  {
    forall i | 0 <= i < |s.db.allocations| && s.db.allocations[i].status == Released
      ensures !RowPosted(s.db, s.db.allocations[i])
    {
      assert RowOk(s.db, s.db.allocations[i]);
      assert Quiet(s, s.db.allocations[i].order);
    }
  }

  lemma {:induction false} SafeFrom(s: System, steps: seq<Step>)
    requires SafeInv(s) && AllPossible(steps) && Calm(s, steps)
    ensures SafeInv(Run(s, steps))
  {
    if steps != [] {
      var n := |steps| - 1;
      SafeFrom(s, steps[..n]);
      SafeStep(Run(s, steps[..n]), steps[n]);
    }
  }

  lemma SafeStart(onHand: map<Key, int>)
    requires StockedStart(onHand)
    ensures SafeInv(Start(onHand))
  {
    StartHolds(onHand);
    var db := Start(onHand).db;
    forall k | k in db.onHand ensures Outstanding(db, k) <= db.onHand[k] {
      assert OutstandingWeights(db, k) == [];
    }
  }

  /**
   * Stock safety of whole runs: as long as no committed cancellation overtakes a fulfilment of its
   * own order, every reachable state backs every outstanding reservation with stock on hand, and
   * no allocation is ever both posted and released.
   */
  lemma StockSafe(onHand: map<Key, int>, steps: seq<Step>)
    requires StockedStart(onHand) && AllPossible(steps) && Calm(Start(onHand), steps)
    ensures Safe(Run(Start(onHand), steps).db)
  {
    SafeStart(onHand);
    SafeFrom(Start(onHand), steps);
    SafeInvIsSafe(Run(Start(onHand), steps));
  }
}
